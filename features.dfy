/** The customer feature aggregator `build_customer_features`
    (src/modeling/features.py): one row per customer, recency measured
    against one global snapshot, and the proxy churn flag. */
module Features {
  import opened Common
  import Numeric
  import Text
  import opened Transform

  /** One row of the customer feature table. The churn column is named
      after the window (ChurnColumnName); `None` is a NaN / NaT cell. */
  datatype CustomerFeatures = CustomerFeatures(
    customerUniqueId: string, recencyDays: Option<int>, frequencyOrders: int,
    monetaryTotal: real, avgOrderValue: real, avgReviewScore: Option<real>,
    avgDeliveryDays: Option<real>, lastPurchase: Option<int>, churn: bool)

  /** `f"churn_{churn_window_days}d"`. */
  function ChurnColumnName(w: int): (name: string)
    ensures |name| >= 8 && Text.StartsWith(name, "churn_") && name[|name| - 1] == 'd'
  {
    "churn_" + Text.IntToString(w) + "d"
  }

  /** The columns of the returned table, in their order (lines 37-47). */
  function FeatureColumns(w: int): (cols: seq<string>)
    ensures |cols| == 9 && cols[8] == ChurnColumnName(w)
    ensures Text.StartsWith(cols[8], "churn_")
    ensures forall i :: 0 <= i < 8 ==> !Text.StartsWith(cols[i], "churn_")
  {
    var cols := ["customer_unique_id", "recency_days", "frequency_orders", "monetary_total",
                 "avg_order_value", "avg_review_score", "avg_delivery_days", "last_purchase",
                 ChurnColumnName(w)];
    assert ChurnColumnName(w)[..6] == "churn_";
    Text.DiffersAt(cols[0], "churn_", 1);
    forall i | 1 <= i < 8 ensures !Text.StartsWith(cols[i], "churn_") {
      Text.DiffersAt(cols[i], "churn_", 0);
    }
    cols
  }

  /** The id and monetary columns the segments page reads are present, and
      no `segment_name` column is written. */
  lemma FeatureColumnsNamed(w: int)
    ensures FeatureColumns(w)[0] == "customer_unique_id" && FeatureColumns(w)[3] == "monetary_total"
    ensures "segment_name" !in FeatureColumns(w)
  {
    var cols := FeatureColumns(w);
    assert cols[8][0] == 'c';
  }

  // ---------------------------------------------------------------------
  // Reductions pandas skips nulls in
  // ---------------------------------------------------------------------

  /** `.max()` of a datetime column: the latest non-null timestamp, NaT
      when there is none. */
  function MaxTime(ts: seq<Option<int>>): (m: Option<int>)
    ensures m.None? <==> forall i :: 0 <= i < |ts| ==> ts[i].None?
    ensures m.Some? ==> m in ts
    ensures m.Some? ==> forall i :: 0 <= i < |ts| && ts[i].Some? ==> ts[i].value <= m.value
  {
    if ts == [] then None
    else
      var rest := MaxTime(ts[1..]);
      assert forall i :: 1 <= i < |ts| ==> ts[i] == ts[1..][i - 1];
      if ts[0].None? then rest
      else if rest.None? || rest.value <= ts[0].value then ts[0]
      else rest
  }

  /** Number of non-null entries. */
  function PresentCount(xs: seq<Option<real>>): (n: nat)
    ensures n <= |xs|
    ensures n == 0 <==> forall i :: 0 <= i < |xs| ==> xs[i].None?
  {
    if xs == [] then 0
    else
      assert forall i :: 1 <= i < |xs| ==> xs[i] == xs[1..][i - 1];
      (if xs[0].Some? then 1 else 0) + PresentCount(xs[1..])
  }

  /** Sum of the non-null entries (`.sum()`: 0 when all are null). */
  function PresentSum(xs: seq<Option<real>>): real {
    if xs == [] then 0.0 else (if xs[0].Some? then xs[0].value else 0.0) + PresentSum(xs[1..])
  }

  /** `.mean()`: the mean of the non-null entries, NaN when there are none. */
  function Mean(xs: seq<Option<real>>): (m: Option<real>)
    ensures m.None? <==> forall i :: 0 <= i < |xs| ==> xs[i].None?
    ensures m.Some? ==> m.value * PresentCount(xs) as real == PresentSum(xs)
  {
    var n := PresentCount(xs);
    if n == 0 then None else Some(PresentSum(xs) / n as real)
  }

  function AsReal(x: Option<int>): Option<real> {
    if x.Some? then Some(x.value as real) else None
  }

  // ---------------------------------------------------------------------
  // Grouping by customer_unique_id
  // ---------------------------------------------------------------------

  /** Ascending, hence free of repeats. */
  predicate Sorted(keys: seq<string>) {
    forall i, j :: 0 <= i < j < |keys| ==> Text.Less(keys[i], keys[j])
  }

  lemma SortedDistinct(keys: seq<string>)
    requires Sorted(keys)
    ensures forall i, j :: 0 <= i < j < |keys| ==> keys[i] != keys[j]
  {
    forall i, j | 0 <= i < j < |keys| ensures keys[i] != keys[j] {
      Text.LessIrreflexive(keys[i]);
    }
  }

  /** Adds `x` to an ascending sequence of keys. */
  function Insert(keys: seq<string>, x: string): (r: seq<string>)
    requires Sorted(keys)
    ensures Sorted(r)
    ensures forall y :: y in r <==> y in keys || y == x
  {
    if keys == [] then [x]
    else if x == keys[0] then keys
    else if Text.Less(x, keys[0]) then
      assert forall j :: 0 <= j < |keys| ==> Text.Less(x, keys[j]) by {
        forall j | 0 <= j < |keys| ensures Text.Less(x, keys[j]) {
          if j > 0 { Text.LessTransitive(x, keys[0], keys[j]); }
        }
      }
      [x] + keys
    else
      var rest := Insert(keys[1..], x);
      Text.LessTotal(x, keys[0]);
      assert forall y :: y in rest ==> Text.Less(keys[0], y) by {
        forall y | y in rest ensures Text.Less(keys[0], y) {
          if y != x {
            var j :| 0 <= j < |keys[1..]| && keys[1..][j] == y;
            assert keys[j + 1] == y;
          }
        }
      }
      assert forall y :: y in keys <==> y == keys[0] || y in keys[1..] by {
        assert keys == [keys[0]] + keys[1..];
      }
      [keys[0]] + rest
  }

  predicate HasCustomer(tx: seq<Transaction>, c: string) {
    exists t :: t in tx && t.customerUniqueId == Some(c)
  }

  /** The group keys of `tx.groupby("customer_unique_id")`: each non-null
      id once, in ascending order; rows with a null id form no group. */
  function CustomerKeys(tx: seq<Transaction>): (keys: seq<string>)
    ensures Sorted(keys)
    ensures forall c :: c in keys <==> HasCustomer(tx, c)
  {
    if tx == [] then []
    else
      var init, last := tx[..|tx| - 1], tx[|tx| - 1];
      var keys := CustomerKeys(init);
      assert forall t :: t in tx <==> t in init || t == last by {
        assert tx == init + [last];
      }
      if last.customerUniqueId.Some? then Insert(keys, last.customerUniqueId.value) else keys
  }

  /** The rows of customer `c`'s group. */
  function RowsOf(tx: seq<Transaction>, c: string): (rows: seq<Transaction>)
    ensures forall t :: t in rows <==> t in tx && t.customerUniqueId == Some(c)
  {
    Filter(tx, (t: Transaction) => t.customerUniqueId == Some(c))
  }

  /** A group keeps each of its customer's rows as often as the table holds
      it: duplicate rows stay duplicated, and so count twice in the sums. */
  lemma RowsOfCount(tx: seq<Transaction>, c: string, t: Transaction)
    ensures Count(RowsOf(tx, c), t) == if t.customerUniqueId == Some(c) then Count(tx, t) else 0
  {
  }

  function PurchaseTimes(rows: seq<Transaction>): (ts: seq<Option<int>>)
    ensures |ts| == |rows| && forall i :: 0 <= i < |rows| ==> ts[i] == rows[i].purchase
  {
    seq(|rows|, i requires 0 <= i < |rows| => rows[i].purchase)
  }

  /** Line 18: the single snapshot, the latest purchase over the whole table. */
  function Snapshot(tx: seq<Transaction>): Option<int> {
    MaxTime(PurchaseTimes(tx))
  }

  /** The snapshot is NaT exactly when every purchase time is, and is
      otherwise one of the purchase times and no earlier than any. */
  lemma SnapshotIsLatest(tx: seq<Transaction>)
    ensures Snapshot(tx).None? <==> forall i :: 0 <= i < |tx| ==> tx[i].purchase.None?
    ensures Snapshot(tx).Some? ==> exists i :: 0 <= i < |tx| && tx[i].purchase == Snapshot(tx)
    ensures Snapshot(tx).Some? ==>
      forall i :: 0 <= i < |tx| && tx[i].purchase.Some? ==> tx[i].purchase.value <= Snapshot(tx).value
  {
    var ts := PurchaseTimes(tx);
    if Snapshot(tx).Some? {
      var k :| 0 <= k < |ts| && ts[k] == Snapshot(tx);
      assert tx[k].purchase == Snapshot(tx);
    }
  }

  /** `last_purchase=("order_purchase_timestamp", "max")`. */
  function LastPurchase(tx: seq<Transaction>, c: string): Option<int> {
    MaxTime(PurchaseTimes(RowsOf(tx, c)))
  }

  /** The distinct `order_id`s of customer `c`'s rows. */
  function OrderIds(tx: seq<Transaction>, c: string): set<string> {
    set t | t in tx && t.customerUniqueId == Some(c) :: t.orderId
  }

  /** `monetary_total=("revenue", "sum")`: null revenues count as nothing. */
  function Monetary(tx: seq<Transaction>, c: string): real {
    PresentSum(Revenues(RowsOf(tx, c)))
  }

  function Revenues(rows: seq<Transaction>): seq<Option<real>> {
    seq(|rows|, i requires 0 <= i < |rows| => rows[i].revenue)
  }

  function ReviewScores(rows: seq<Transaction>): seq<Option<real>> {
    seq(|rows|, i requires 0 <= i < |rows| => AsReal(rows[i].reviewScore))
  }

  function DeliveryLatencies(rows: seq<Transaction>): seq<Option<real>> {
    seq(|rows|, i requires 0 <= i < |rows| => AsReal(rows[i].deliveryDays))
  }

  /** `(snapshot_date - last_purchase).dt.days`, NaN when either is NaT. */
  function RecencyDays(snapshot: Option<int>, last: Option<int>): (r: Option<int>)
    ensures r.Some? <==> snapshot.Some? && last.Some?
    ensures r.Some? ==> r.value * Numeric.SecondsPerDay <= snapshot.value - last.value < (r.value + 1) * Numeric.SecondsPerDay
  {
    if snapshot.Some? && last.Some? then Some(Numeric.FloorDays(snapshot.value - last.value)) else None
  }

  /** Every group has at least one order. */
  lemma FrequencyPositive(tx: seq<Transaction>, c: string)
    requires HasCustomer(tx, c)
    ensures |OrderIds(tx, c)| >= 1
  {
    var t :| t in tx && t.customerUniqueId == Some(c);
    assert t.orderId in OrderIds(tx, c);
  }

  /** A customer's last purchase is never after the snapshot, so recency is
      never negative. */
  lemma LastPurchaseBeforeSnapshot(tx: seq<Transaction>, c: string)
    requires LastPurchase(tx, c).Some?
    ensures Snapshot(tx).Some? && LastPurchase(tx, c).value <= Snapshot(tx).value
  {
    var rows := RowsOf(tx, c);
    var last := LastPurchase(tx, c);
    var k :| 0 <= k < |rows| && PurchaseTimes(rows)[k] == last;
    assert rows[k] in rows;
    var j :| 0 <= j < |tx| && tx[j] == rows[k];
    assert PurchaseTimes(tx)[j] == last;
  }

  // ---------------------------------------------------------------------
  // The aggregator
  // ---------------------------------------------------------------------

  /** The customer ids of a feature table, in row order. */
  function Ids(features: seq<CustomerFeatures>): (ids: seq<string>)
    ensures |ids| == |features| && forall i :: 0 <= i < |features| ==> ids[i] == features[i].customerUniqueId
  {
    seq(|features|, i requires 0 <= i < |features| => features[i].customerUniqueId)
  }

  /** What the feature row of customer `f.customerUniqueId` holds: the
      number of distinct orders (at least one), the revenue total, the
      average order value times the order count giving that total, the
      null-skipping means, the latest purchase, the recency in whole days
      since the global snapshot (never negative), and the churn flag, set
      exactly when the recency exceeds the window. */
  ghost predicate FeatureRowSpec(tx: seq<Transaction>, w: int, f: CustomerFeatures) {
    var c := f.customerUniqueId;
    && f.frequencyOrders == |OrderIds(tx, c)| && f.frequencyOrders >= 1
    && f.monetaryTotal == Monetary(tx, c)
    && IsAverage(f.avgOrderValue, f.frequencyOrders, f.monetaryTotal)
    && f.avgReviewScore == Mean(ReviewScores(RowsOf(tx, c)))
    && f.avgDeliveryDays == Mean(DeliveryLatencies(RowsOf(tx, c)))
    && f.lastPurchase == LastPurchase(tx, c)
    && (f.recencyDays.Some? <==> f.lastPurchase.Some?)
    && (f.recencyDays.Some? ==>
          && f.recencyDays.value >= 0
          && f.recencyDays.value == Numeric.FloorDays(Snapshot(tx).value - f.lastPurchase.value))
    && f.churn == (f.recencyDays.Some? && f.recencyDays.value > w)
  }

  /** One row of the `groupby(...).agg(...)` table of lines 20-30. */
  datatype Aggregate = Aggregate(
    customerUniqueId: string, lastPurchase: Option<int>, frequencyOrders: int,
    monetaryTotal: real, avgReviewScore: Option<real>, avgDeliveryDays: Option<real>)

  /** The aggregates of customer `c`'s group; every group has an order. */
  function AggregateRow(tx: seq<Transaction>, c: string): (a: Aggregate)
    requires HasCustomer(tx, c)
    ensures a.customerUniqueId == c && a.frequencyOrders >= 1
  {
    FrequencyPositive(tx, c);
    Aggregate(c, LastPurchase(tx, c), |OrderIds(tx, c)|, Monetary(tx, c),
              Mean(ReviewScores(RowsOf(tx, c))), Mean(DeliveryLatencies(RowsOf(tx, c))))
  }

  /** The aggregated table: one row per group key, in key order. */
  function GroupAggregate(tx: seq<Transaction>): (agg: seq<Aggregate>)
    ensures |agg| == |CustomerKeys(tx)|
    ensures forall i :: 0 <= i < |agg| ==> HasCustomer(tx, CustomerKeys(tx)[i])
    ensures forall i :: 0 <= i < |agg| ==> agg[i] == AggregateRow(tx, CustomerKeys(tx)[i])
  {
    var keys := CustomerKeys(tx);
    assert forall i :: 0 <= i < |keys| ==> keys[i] in keys;
    seq(|keys|, i requires 0 <= i < |keys| => AggregateRow(tx, keys[i]))
  }

  /** The feature row of customer `c`: its aggregates with the columns of
      lines 32-35 added. */
  function FeatureRow(tx: seq<Transaction>, w: int, c: string): CustomerFeatures
    requires HasCustomer(tx, c)
  {
    FeaturesOf(AggregateRow(tx, c), Snapshot(tx), w)
  }

  /** The derived columns of lines 32-35 added to one aggregate row: the
      aggregated columns are carried over, the average order value times
      the order count is the monetary total, recency counts the whole days
      back from the snapshot, and the flag is set exactly when recency is
      known and exceeds the window. */
  function FeaturesOf(a: Aggregate, snapshot: Option<int>, w: int): (f: CustomerFeatures)
    requires a.frequencyOrders >= 1
    ensures f.customerUniqueId == a.customerUniqueId && f.lastPurchase == a.lastPurchase
    ensures f.frequencyOrders == a.frequencyOrders && f.monetaryTotal == a.monetaryTotal
    ensures f.avgReviewScore == a.avgReviewScore && f.avgDeliveryDays == a.avgDeliveryDays
    ensures IsAverage(f.avgOrderValue, a.frequencyOrders, a.monetaryTotal)
    ensures f.recencyDays.Some? <==> snapshot.Some? && a.lastPurchase.Some?
    ensures f.recencyDays.Some? ==>
      f.recencyDays.value * Numeric.SecondsPerDay <= snapshot.value - a.lastPurchase.value
        < (f.recencyDays.value + 1) * Numeric.SecondsPerDay
    ensures f.churn <==> f.recencyDays.Some? && f.recencyDays.value > w
  {
    DivideBack(a.monetaryTotal, a.frequencyOrders);
    var recency := RecencyDays(snapshot, a.lastPurchase);
    CustomerFeatures(a.customerUniqueId, recency, a.frequencyOrders, a.monetaryTotal,
                     a.monetaryTotal / a.frequencyOrders as real,
                     a.avgReviewScore, a.avgDeliveryDays, a.lastPurchase,
                     recency.Some? && recency.value > w)
  }

  lemma FeatureRowMeetsSpec(tx: seq<Transaction>, w: int, c: string)
    requires HasCustomer(tx, c)
    ensures FeatureRowSpec(tx, w, FeatureRow(tx, w, c))
  {
    FrequencyPositive(tx, c);
    var f := FeatureRow(tx, w, c);
    DivideBack(f.monetaryTotal, f.frequencyOrders);
    if LastPurchase(tx, c).Some? {
      LastPurchaseBeforeSnapshot(tx, c);
    }
  }

  /** `avg` is the mean of `n` values whose sum is `total`. */
  predicate IsAverage(avg: real, n: int, total: real) {
    avg * n as real == total
  }

  lemma DivideBack(total: real, n: int)
    requires n >= 1
    ensures IsAverage(total / n as real, n, total)
  {
  }

  /** `build_customer_features(transactions, churn_window_days)`: the
      feature table and its column names. The timestamps are already
      datetimes, so the coercion of line 14 leaves them as they are. */
  method BuildCustomerFeatures(transactions: seq<Transaction>, churnWindowDays: int)
    returns (features: seq<CustomerFeatures>, columns: seq<string>)
    ensures columns == FeatureColumns(churnWindowDays)
    ensures Sorted(Ids(features))
    ensures forall c :: c in Ids(features) <==> HasCustomer(transactions, c)
    ensures forall i :: 0 <= i < |features| ==> FeatureRowSpec(transactions, churnWindowDays, features[i])
  {
    var tx := transactions;
    var snapshot := Snapshot(tx);
    var agg := GroupAggregate(tx);
    features := DeriveColumns(agg, snapshot, churnWindowDays);
    columns := FeatureColumns(churnWindowDays);
    var keys := CustomerKeys(tx);
    forall i | 0 <= i < |features| ensures features[i] == FeatureRow(tx, churnWindowDays, keys[i]) {
    }
    FeatureTableMeetsSpec(tx, churnWindowDays, features);
  }

  /** Lines 32-35: the recency, average order value and churn columns
      added to the aggregated table, column by column. Every aggregate has
      an order, as AggregateRow ensures, so the division is defined. */
  method DeriveColumns(agg: seq<Aggregate>, snapshot: Option<int>, churnWindowDays: int)
    returns (features: seq<CustomerFeatures>)
    requires forall i :: 0 <= i < |agg| ==> agg[i].frequencyOrders >= 1
    ensures |features| == |agg|
    ensures forall i :: 0 <= i < |agg| ==> features[i] == FeaturesOf(agg[i], snapshot, churnWindowDays)
  {
    var n := |agg|;
    var recency := seq(n, i requires 0 <= i < n => RecencyDays(snapshot, agg[i].lastPurchase));
    var avgOrderValue := seq(n, i requires 0 <= i < n => agg[i].monetaryTotal / agg[i].frequencyOrders as real);
    var churn := seq(n, i requires 0 <= i < n => recency[i].Some? && recency[i].value > churnWindowDays);
    features := seq(n, i requires 0 <= i < n =>
      CustomerFeatures(agg[i].customerUniqueId, recency[i], agg[i].frequencyOrders, agg[i].monetaryTotal,
                       avgOrderValue[i], agg[i].avgReviewScore, agg[i].avgDeliveryDays,
                       agg[i].lastPurchase, churn[i]));
  }

  /** A table holding the feature row of every group key, in key order,
      has sorted ids that are exactly the customers, and every row meets
      the row properties. */
  lemma FeatureTableMeetsSpec(tx: seq<Transaction>, w: int, features: seq<CustomerFeatures>)
    requires |features| == |CustomerKeys(tx)|
    requires forall i :: 0 <= i < |features| ==>
      HasCustomer(tx, CustomerKeys(tx)[i]) && features[i] == FeatureRow(tx, w, CustomerKeys(tx)[i])
    ensures Sorted(Ids(features))
    ensures forall c :: c in Ids(features) <==> HasCustomer(tx, c)
    ensures forall i :: 0 <= i < |features| ==> FeatureRowSpec(tx, w, features[i])
  {
    var keys := CustomerKeys(tx);
    forall i | 0 <= i < |features| ensures FeatureRowSpec(tx, w, features[i]) {
      FeatureRowMeetsSpec(tx, w, keys[i]);
    }
    assert Ids(features) == keys;
  }
}
