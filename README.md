# Olist customer analytics pipeline — Dafny model

This project models the batch pipeline of a customer-analytics repository built on
the Olist e-commerce data. The raw order tables become an order-level transaction
table (src/etl/transform.py). From that table the pipeline builds one feature row per
customer, with recency, frequency, monetary value and a proxy churn flag
(src/modeling/features.py). Each customer then gets quartile R/F/M scores and an
RFM string (src/analysis/segmentation.py). The model also covers the column
validator (src/utils/validation.py) and the arithmetic the Streamlit dashboard
uses to make decisions (app/dashboard.py): the suggested risk threshold, the
"top 10 + Others" revenue chart, the percentage clip, the opportunity-sizing
figures, and reading the churn window back out of the flag column's name.

Tables are sequences of records, and a null cell (NaN / NaT) is `None`. Timestamps
are integer seconds. Money and probabilities are exact reals, so float rounding
error is not modelled. Python's `round` is half-to-even.

Each Python file is one module:

- `Validation`
- `Transform`
- `Features`
- `Segmentation`
- `Dashboard`

Shared pieces sit in their own modules:

- `Common`: `Option`, counting, subsequences and filtering.
- `Numeric`: day floors and rounding.
- `Text`: `str(int)`, `replace`, `startswith`, list `repr` and string order.

`Pipeline` relates the column names the stages hand over, as main.py:45-64 chains
them. It links column names, not data. It also shows that the dashboard's schema
check rejects the segments table the pipeline writes.

The only state the source changes in place is the caller's `orders` table, which
`build_transaction_table` rewrites in its two timestamp columns. That table is the
class `Transform.OrdersTable`, and `Transform.BuildTransactionTable` modifies it.
`build_customer_features` and `assign_rfm_segments` work on private copies and
add columns to them step by step. They are methods that build their result in
local steps, each proved against the functions that define the columns.

Behaviour of the code worth noting, which the model reproduces:

- `build_transaction_table` calls `pd.to_datetime` without `errors="coerce"`. A
  timestamp that does not parse therefore raises; it is not turned into NaT.
  `Transform.BuildTransactionTable` returns `DateParseError` for that column. A
  purchase column that has already been converted stays converted when the
  delivered column then fails.
- The transaction table has no status filter, no de-duplication and no schema
  check.
- When `pd.qcut` leaves no bins at all, `_qcut_score` gives every row `labels[-1]`,
  which is the highest label and not the lowest, and it skips the reversal.
- `assign_rfm_segments` writes no `segment_name` column, yet the dashboard's
  `load_data` requires one (app/dashboard.py:404-408). On the pipeline's own
  `customer_segments.csv` the page therefore reports `['segment_name']` missing and
  stops before any panel runs. `Pipeline.SegmentedTableLacksSegmentName` states this.
  The dashboard helpers are modelled on their own inputs all the same.

## Model

| member | source | states |
|---|---|---|
| Validation.Missing | src/utils/validation.py:8 | each required name is listed exactly as often as it is required when it is absent from the columns, and not at all when present; the list keeps the order of `required` |
| Validation.ErrorMessage | src/utils/validation.py:10-13 | the error text starts with `[schema] ` and contains the table name, the repr of the missing list and the repr of all available columns |
| Validation.MissingEmpty | src/utils/validation.py:8-9 | nothing is missing exactly when every required name is among the columns |
| Validation.RequireColumns | src/utils/validation.py:7-13 | returns normally iff every required column is present; otherwise the error carries the non-empty missing list and a message naming the table, the missing list and the available columns |
| Validation.MissingReviewScore | src/utils/validation.py:7-13 | a reviews table with `order_id` but no `review_score` fails, missing exactly `['review_score']` |
| Validation.EmptyRequiredPasses | src/utils/validation.py:7-13 | an empty requirement list always passes |
| Transform.BuildTransactionTable | src/etl/transform.py:4-53 | if the purchase column does not parse, the error names it and the orders are unchanged; if only the delivered column fails, the orders hold the converted purchase column; on success both columns are converted in place and the result is the transaction table of the converted orders |
| Transform.ConvertPurchase | src/etl/transform.py:12-14 | one row per order; each purchase cell becomes the datetime its text parses to (a datetime stays as it is), and nothing else in the row changes |
| Transform.ConvertDelivered | src/etl/transform.py:15-17 | one row per order; each delivered cell becomes the datetime its text parses to (a datetime stays as it is), and nothing else in the row changes |
| Transform.ConversionKeepsOtherColumns | src/etl/transform.py:12-17 | the in-place conversion keeps the row count, the ids and the status of every order and changes only the two timestamp cells |
| Transform.GroupSum | src/etl/transform.py:20-36 | the groups are exactly the keys that occur, and each group's total is the sum of its rows' values |
| Transform.SumWhereAbsent | src/etl/transform.py:20-36 | a key with no rows sums to zero |
| Transform.JoinOrderTotals | src/etl/transform.py:39-40 | one row per order, in order; revenue and freight are present iff the order has items, and are then the sums over that order's items; total payment likewise over its payments |
| Transform.JoinRow | src/etl/transform.py:41-46 | a left row yields at least one output row, matched or not |
| Transform.JoinRowSpec | src/etl/transform.py:41-46 | a left row is emitted once per matching right row, each paired with a genuine match, or, iff nothing matches, as the single row with nulls |
| Transform.LeftJoin | src/etl/transform.py:41-46 | a left join never has fewer rows than its left side |
| Transform.LeftJoinAppend | src/etl/transform.py:41-46 | a left join of concatenated tables is the concatenation of the joins, so row order is kept |
| Transform.LeftJoinRows | src/etl/transform.py:41-46 | every output row comes from a left row and a matching right row or none; every left row appears; an unmatched row appears with nulls and every match appears |
| Transform.JoinReviews | src/etl/transform.py:41 | the review join never has fewer rows than its input |
| Transform.ReviewJoinPerReview | src/etl/transform.py:41 | every review of an order yields that order's row carrying that review's score |
| Transform.ReviewJoinUnmatched | src/etl/transform.py:41 | an order without reviews keeps its row, with a null score |
| Transform.JoinCustomers | src/etl/transform.py:42-46 | the customer join never has fewer rows than its input |
| Transform.CustomerJoinPerCustomer | src/etl/transform.py:42-46 | every customer row matching a transaction's `customer_id` yields that transaction's row carrying the customer's unique id |
| Transform.CustomerJoinUnmatched | src/etl/transform.py:42-46 | a transaction whose `customer_id` no customer row has keeps its row, with a null unique id |
| Transform.DeliveryDays | src/etl/transform.py:48-51 | present iff both timestamps are present, and then the floor of the span in days (which may be negative) |
| Transform.AddDeliveryDays | src/etl/transform.py:48-51 | every row gets the floor-day latency of its own two timestamps, and nothing else changes |
| Transform.TransactionTable | src/etl/transform.py:19-53 | the transaction table never has fewer rows than the orders table |
| Transform.ReviewJoinSameOrders | src/etl/transform.py:41 | the review join neither adds nor drops any order's columns |
| Transform.CustomerJoinSameOrders | src/etl/transform.py:42-46 | the customer join neither adds nor drops any order's columns |
| Transform.DeliveryDaysSameOrders | src/etl/transform.py:48-51 | adding `delivery_days` neither adds nor drops any order's columns |
| Transform.TransactionTableKeepsOrders | src/etl/transform.py:39-53 | the order columns of the final table are exactly those of the first join: no order is filtered out or invented |
| Transform.NoStatusFilter | src/etl/transform.py:4-53 | every order, whatever its status, reaches the final table with its ids, status and timestamps |
| Features.FeatureColumns | src/modeling/features.py:35-48 | nine columns in the fixed order, the last being `churn_<w>d` and the only one starting with `churn_` |
| Features.ChurnColumnName | src/modeling/features.py:35 | the flag column's name starts with `churn_`, ends in `d` and has at least one character between; Dashboard.ChurnWindowLabelOfName recovers `<w>d` from it |
| Features.MaxTime | src/modeling/features.py:18-23 | the latest non-null timestamp, one of the inputs, or NaT exactly when all are null |
| Features.PresentCount | src/modeling/features.py:26-27 | counts non-null entries; zero exactly when all are null |
| Features.Mean | src/modeling/features.py:26-27 | NaN exactly when all entries are null; otherwise the mean times the count is the sum of the non-null entries |
| Features.Insert | src/modeling/features.py:20-21 | adding a key keeps the keys ascending and holds exactly the old keys and the new one |
| Features.SortedDistinct | src/modeling/features.py:20-21 | ascending keys are free of repeats |
| Features.CustomerKeys | src/modeling/features.py:20-21 | the group keys are ascending and are exactly the non-null customer ids |
| Features.RowsOf | src/modeling/features.py:20-21 | a group holds exactly the rows of its customer |
| Features.RowsOfCount | src/modeling/features.py:20-21 | a group holds each of its customer's rows exactly as often as the table does, and no other row |
| Features.FrequencyPositive | src/modeling/features.py:24 | every customer has at least one distinct order |
| Features.SnapshotIsLatest | src/modeling/features.py:18 | the snapshot is NaT exactly when every purchase time is; otherwise it is one of the purchase times and no purchase is later |
| Features.RecencyDays | src/modeling/features.py:32 | present exactly when both the snapshot and the last purchase are, and then the whole number of days in the span between them, rounded down |
| Features.LastPurchaseBeforeSnapshot | src/modeling/features.py:18-32 | a customer's last purchase is never after the global snapshot |
| Features.AggregateRow | src/modeling/features.py:20-28 | the aggregate row of a customer carries that customer's id and at least one order |
| Features.GroupAggregate | src/modeling/features.py:20-28 | one aggregate per group key, in key order, each for a customer that occurs in the table |
| Features.FeaturesOf | src/modeling/features.py:32-35 | the aggregated columns carry over; AOV × frequency = monetary; recency is present iff snapshot and last purchase are, and then the floor-day span; churn holds iff recency is present and above the window |
| Features.FeatureRowMeetsSpec | src/modeling/features.py:20-35 | a customer's row has frequency = distinct orders ≥ 1, monetary = revenue sum, AOV × frequency = monetary, the null-skipping means, last purchase = the max, recency present iff last purchase is and then the non-negative floor of days to the snapshot, churn iff recency > w |
| Features.DeriveColumns | src/modeling/features.py:32-35 | each output row is its aggregate with the average order value, the recency against the snapshot and the churn flag added, in the aggregates' order (every aggregate has at least one order, as AggregateRow guarantees) |
| Features.FeatureTableMeetsSpec | src/modeling/features.py:20-35 | a table of the feature rows of the group keys, in key order, has ascending ids that are exactly the customers, and every row meets the row properties |
| Features.BuildCustomerFeatures | src/modeling/features.py:4-48 | returns the named columns and one row per distinct non-null customer id, in ascending order, each meeting the row properties above |
| Segmentation.CountBelowPrefix | src/analysis/segmentation.py:12-15 | over increasing edges, the edges below a value form a prefix |
| Segmentation.BinCode | src/analysis/segmentation.py:12-15 | a value in the edges' span gets a code in [0, k-1]; code 0 means the closed first bin, code c > 0 means edges[c] < x ≤ edges[c+1] |
| Segmentation.BinCodeMonotone | src/analysis/segmentation.py:12-15 | a larger value never lands in a lower bin |
| Segmentation.BinCodeEnds | src/analysis/segmentation.py:12-19 | the lowest edge is in bin 0 and the highest in bin k-1 |
| Segmentation.ScaledIndex | src/analysis/segmentation.py:27 | the scaled position lies in [0, n-1]; code 0 gives 0; with k ≥ 2, code k-1 gives n-1 |
| Segmentation.PositionBounds | src/analysis/segmentation.py:27 | the unrounded position `code / max(k-1, 1) * (n-1)` lies in [0, n-1] and is exactly n-1 for the last of at least two codes |
| Segmentation.ScaledIndexMonotone | src/analysis/segmentation.py:27 | a higher code never gets an earlier label position |
| Segmentation.ReverseScores | src/analysis/segmentation.py:30-32 | mirroring keeps every score within the original min and max |
| Segmentation.ReverseAntitone | src/analysis/segmentation.py:30-32 | mirroring turns a larger score into a smaller one |
| Segmentation.ReverseMaxAt | src/analysis/segmentation.py:30-32 | the smallest score is mirrored onto the largest, so the mirrored max is the original max |
| Segmentation.ReverseMinAt | src/analysis/segmentation.py:30-32 | the largest score is mirrored onto the smallest, so the mirrored min is the original min |
| Segmentation.ReverseKeepsRange | src/analysis/segmentation.py:30-32 | mirroring keeps the max and the min |
| Segmentation.ReverseTwice | src/analysis/segmentation.py:30-32 | mirroring twice gives the scores back |
| Segmentation.Labelled | src/analysis/segmentation.py:27-28 | one score per value, each one of the labels |
| Segmentation.QcutScore | src/analysis/segmentation.py:4-34 | one score per value in order; with no bins every score is `labels[-1]`; unreversed scores are labels; all scores lie within the labels' range |
| Segmentation.LabelledMonotone | src/analysis/segmentation.py:12-28 | before any reversal, a larger value never gets a smaller label |
| Segmentation.QcutUnreversedMonotone | src/analysis/segmentation.py:27-28 | unreversed, a larger value never scores lower |
| Segmentation.QcutReversedAntitone | src/analysis/segmentation.py:27-32 | reversed, a larger value never scores higher |
| Segmentation.QcutScoreMonotone | src/analysis/segmentation.py:27-32 | with increasing labels a larger value never scores lower, or never higher when reversed |
| Segmentation.QcutSingleBin | src/analysis/segmentation.py:19-32 | with a single bin every row gets `labels[0]`, reversed or not |
| Segmentation.QcutScoreEnds | src/analysis/segmentation.py:27 | unreversed, a value at the first edge scores `labels[0]` and, with two bins or more, a value at the last edge scores `labels[-1]` |
| Segmentation.RfmScoresInRange | src/analysis/segmentation.py:41-47 | every quartile score over the labels 1-4 is between 1 and 4, reversed or not |
| Segmentation.RfmScore | src/analysis/segmentation.py:49-53 | the RFM string has at least three characters, all of them digits exactly when none of the three scores is negative |
| Segmentation.RfmScoreRoundTrip | src/analysis/segmentation.py:49-53 | three single-digit scores make a three-digit string that decodes back to them |
| Segmentation.AddColumn | src/analysis/segmentation.py:41-53 | assigning a column appends a new name or keeps an existing one in place |
| Segmentation.AssignRfmSegments | src/analysis/segmentation.py:37-55 | the input rows unchanged and in order, with R = reversed recency quartile score and F, M = plain quartile scores over labels 1-4, each in [1, 4], and the RFM string their three-character concatenation |
| Dashboard.SuggestedThreshold | app/dashboard.py:357-363 | 60 for an empty series; always a multiple of 5 in [10, 95]; the snapped percentile inside the range and the nearer bound outside it |
| Dashboard.Snap | app/dashboard.py:362 | `int(round(q70 / 5) * 5)` is a multiple of five within 2.5 of the percentile |
| Dashboard.SnapNearest | app/dashboard.py:361-362 | the snapped value is a multiple of five no farther from the percentile than any other multiple of five, and on a tie the even one |
| Dashboard.SuggestedThresholdMonotone | app/dashboard.py:361-363 | a higher percentile never suggests a lower threshold |
| Dashboard.ClipPercent | app/dashboard.py:654 | the percentage is in [0, 100], equal to p × 100 inside that range and the nearer bound outside |
| Dashboard.ClipPercentMonotone | app/dashboard.py:654 | clipping keeps the order of probabilities |
| Dashboard.ClipPercents | app/dashboard.py:654 | one clipped value per row, each in [0, 100] |
| Dashboard.TotalConcat | app/dashboard.py:570 | revenue totals add over concatenation |
| Dashboard.CollapseBars | app/dashboard.py:567-573 | ten bars or fewer plot unchanged; more plot the first ten and an "Others" bar with the rest's total; the plotted total equals the total over all segments |
| Dashboard.CollapseKeepsLargest | app/dashboard.py:565-570 | with bars sorted by revenue, every bar shown outearns every bar folded into "Others" |
| Dashboard.HighRisk | app/dashboard.py:685 | the high-risk rows are exactly the rows at or above the threshold, each as often as in the table, in order, and never more than all rows |
| Dashboard.Percent | app/dashboard.py:692-696 | 0 when the denominator is 0; within [0, 100] for a part of a positive whole |
| Dashboard.OpportunitySizing | app/dashboard.py:690-697 | high-risk count ≤ customer count; `pct_above` is the high-risk count as a percentage of the customers, 0 with none and otherwise in [0, 100]; `revenue_at_risk_share` is revenue at risk as a percentage of total revenue, 0 when that is 0; revenue at risk is the high-risk rows' revenue; uplift is that revenue times the win-back rate |
| Dashboard.FilteredRevenueBounds | app/dashboard.py:694-695 | any filtered selection of non-negative revenues totals between 0 and the whole |
| Dashboard.OpportunityBounds | app/dashboard.py:694-697 | with non-negative revenues, 0 ≤ revenue at risk ≤ total revenue, the share is in [0, 100], and the uplift at a rate of at most 100 percent is at most the revenue at risk |
| Dashboard.Uplift | app/dashboard.py:697 | at a rate of 0 nothing is won back, at 100 the whole revenue at risk; non-negative for non-negative inputs |
| Dashboard.UpliftWithin | app/dashboard.py:697 | the win-back at a rate in [0, 100] percent is between 0 and the revenue at risk |
| Dashboard.HighRiskAntitone | app/dashboard.py:685-695 | raising the threshold never adds high-risk customers nor, with non-negative revenues, revenue at risk |
| Dashboard.FilterStronger | app/dashboard.py:685 | a stronger row mask keeps no more rows and no more non-negative revenue |
| Dashboard.SegmentsMissing | app/dashboard.py:404-408 | a required segment column is listed exactly when the table lacks it; the list is empty exactly when all three are present |
| Dashboard.ChurnColumn | app/dashboard.py:469-470 | none exactly when no column starts with `churn_`; otherwise the first column that does |
| Dashboard.ChurnColumnFirst | app/dashboard.py:469-470 | when the k-th column is the first to start with `churn_`, it is the flag column picked |
| Dashboard.ChurnWindowLabel | app/dashboard.py:525 | removing `churn_` never lengthens the name, and every character left comes from it |
| Dashboard.ChurnWindowLabelOfName | app/dashboard.py:525-526 | removing `churn_` from `churn_<w>d` leaves exactly `<w>d` |
| Pipeline.ScoreColumnsAreNew | src/analysis/segmentation.py:41-53 | none of the four score columns is already a feature column |
| Pipeline.SegmentedColumns | src/analysis/segmentation.py:41-53 | the segmented table's columns are the feature columns followed by the four score columns |
| Pipeline.DashboardFindsChurnWindow | app/dashboard.py:469-470 | on the column names of the table the pipeline writes, the churn-window lines would pick `churn_<w>d` as the flag column and show the window `<w>d` (the page stops before them on that table, see the next row) |
| Pipeline.SegmentedColumnsHave | src/analysis/segmentation.py:37-55 | the segmented table has `customer_unique_id` and `monetary_total` but no `segment_name` |
| Pipeline.SegmentedTableLacksSegmentName | app/dashboard.py:404-408 | the dashboard's schema check on the pipeline's segments table reports exactly `segment_name` missing |
| Common.Filter | src/utils/validation.py:8 | a list comprehension keeps exactly the elements satisfying the condition, each as often as it occurs, in order |
| Common.SubsequenceShorter | app/dashboard.py:691 | a selection of rows is never longer than the table |
| Numeric.FloorDays | src/etl/transform.py:49-51 | `Timedelta.days` is the floor of seconds over 86400, non-negative exactly for non-negative spans |
| Numeric.RoundHalfEven | src/analysis/segmentation.py:27 | Python `round`: within one half of the input, ties to the even integer |
| Numeric.RoundHalfEvenMonotone | src/analysis/segmentation.py:27 | rounding keeps order |
| Text.IntToString | src/analysis/segmentation.py:49-53 | `str(n)` is a non-empty string of digits, led by a minus sign exactly when n is negative |
| Text.NatToString | src/analysis/segmentation.py:49-53 | `str(n)` is a non-empty digit string, one character exactly for n < 10 |
| Text.NatToStringRoundTrip | src/analysis/segmentation.py:49-53 | reading back the digits of `str(n)` gives n |
| Text.Replace | app/dashboard.py:525 | `str.replace` with a replacement no longer than the pattern never lengthens the string, and every character of the result comes from the string or the replacement |
| Text.ReplaceAbsent | app/dashboard.py:525 | `replace` leaves a string alone when the pattern's first character does not occur in it |
| Text.ListRepr | src/utils/validation.py:11-12 | a list repr is bracketed |
| Text.LessTransitive | src/modeling/features.py:20-21 | the string order of group keys is transitive |
| Text.LessTotal | src/modeling/features.py:20-21 | any two different strings are ordered one way |

## Left out

- Reading and writing CSV files, the checks on the raw-data directory, and printing
  (main.py, src/etl/extract.py). Configuration (src/config.py) is not part of this
  model.
- Of `load_data` (app/dashboard.py:375-413) only the segments schema check of
  lines 404-408 is modelled, as Dashboard.SegmentsMissing. The CSV reading, the
  demo-data fallback, the timestamp coercion of lines 401-402 and the transactions
  check of lines 409-411 are not.
- The Streamlit page: layout, translations, charts, filters, session state and the
  other panels of app/dashboard.py. The average risk of line 698 is only shown on
  the page and is not modelled.
- Model training and inference (src/modeling/train_churn_model.py,
  src/modeling/inference.py). The churn probabilities are inputs to the dashboard
  functions.
- `pd.to_datetime` parsing is a parameter (`parse`), because string-to-time parsing
  is a library concern.
- The edges of `pd.qcut` are inputs, because the float quantile interpolation is a
  library concern. The model states what qcut guarantees about them: at most q + 1
  edges, strictly increasing, spanning the values.
- The 70th percentile `pcts.quantile(0.70)` is an input for the same reason.
- Segmentation.AssignRfmSegments requires every recency to be present. A null would
  get qcut code -1, and Python's negative indexing would then pick a label by
  accident.
- Features.BuildCustomerFeatures takes timestamps that are already datetimes, so
  the `errors="coerce"` conversion of src/modeling/features.py:14-16 keeps them as
  they are. Unparseable text in the transaction table is not modelled.
- Dashboard.CollapseBars takes the per-segment totals already grouped and sorted
  descending. The `groupby("segment_name").sum().sort_values` step is not modelled,
  and no code shown writes `segment_name`.
- Only the columns the pipeline reads or writes are modelled. Other columns of the
  raw tables pass through untouched in the source.
- Floating point: sums, means, percentages and the rounding at
  src/analysis/segmentation.py:27 are exact reals. The sum order of pandas and NaN
  propagation outside the null cells modelled here are not captured.
- String order within groupby is lexicographic order over characters. Python's
  code-point order agrees with it for the ids in the data.
- `repr` of a list of strings quotes each with single quotes and escapes nothing.
- Segmentation.QcutEdges: the edges only have to enclose the values. pandas also
  puts the outer edges at the minimum and the maximum, which the model does not
  require, so QcutScoreEnds speaks of values at the edges rather than of the
  smallest and largest value.
- Dashboard.OpportunitySizing treats a zero denominator as Python's falsy value.
  A NaN total, which is truthy in Python, is not modelled.
