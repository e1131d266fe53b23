/** The transaction builder `build_transaction_table` (src/etl/transform.py):
    per-order item and payment sums, four left joins and the delivery
    latency, plus the in-place date conversion of the caller's orders table. */
module Transform {
  import opened Common
  import Numeric

  /** A timestamp cell of the orders table: the text read from the CSV, or,
      once `pd.to_datetime` has run over the column, a datetime in integer
      seconds (`None` is NaT). */
  datatype TimeCell = Raw(text: string) | Stamp(at: Option<int>)

  /** What `pd.to_datetime` makes of one text cell: a datetime (or NaT for a
      blank cell), or a parse failure, on which it raises. */
  datatype Parsed = Valid(at: Option<int>) | Invalid

  datatype OrderRow = OrderRow(orderId: string, customerId: string, status: string,
                               purchase: TimeCell, delivered: TimeCell)
  datatype ItemRow = ItemRow(orderId: string, price: real, freightValue: real)
  datatype PaymentRow = PaymentRow(orderId: string, paymentValue: real)
  datatype ReviewRow = ReviewRow(orderId: string, reviewScore: Option<int>)
  datatype CustomerRow = CustomerRow(customerId: string, customerUniqueId: string)

  /** One row of the transaction table; `None` is a null cell. */
  datatype Transaction = Transaction(
    orderId: string, customerId: string, status: string,
    purchase: Option<int>, delivered: Option<int>,
    revenue: Option<real>, freightValue: Option<real>, totalPayment: Option<real>,
    reviewScore: Option<int>, customerUniqueId: Option<string>, deliveryDays: Option<int>)

  /** The caller's `orders` DataFrame: the builder overwrites two of its
      columns in place, so it is an object the caller shares. */
  class OrdersTable {
    var rows: seq<OrderRow>

    constructor (rows: seq<OrderRow>)
      ensures this.rows == rows
    {
      this.rows := rows;
    }
  }

  /** The `data` dictionary handed to the builder. */
  datatype RawData = RawData(orders: OrdersTable, orderItems: seq<ItemRow>,
                             customers: seq<CustomerRow>, payments: seq<PaymentRow>,
                             reviews: seq<ReviewRow>)

  // ---------------------------------------------------------------------
  // Date conversion (lines 12-17)
  // ---------------------------------------------------------------------

  /** `pd.to_datetime` on one cell: text is parsed, a datetime is kept. */
  function CellValue(c: TimeCell, parse: string -> Parsed): Parsed {
    match c
    case Raw(text) => parse(text)
    case Stamp(at) => Valid(at)
  }

  /** `pd.to_datetime` succeeds on a column exactly when every cell parses. */
  predicate ColumnParses(cells: seq<TimeCell>, parse: string -> Parsed) {
    forall i :: 0 <= i < |cells| ==> CellValue(cells[i], parse).Valid?
  }

  function PurchaseColumn(rows: seq<OrderRow>): (c: seq<TimeCell>)
    ensures |c| == |rows| && forall i :: 0 <= i < |rows| ==> c[i] == rows[i].purchase
  {
    seq(|rows|, i requires 0 <= i < |rows| => rows[i].purchase)
  }

  function DeliveredColumn(rows: seq<OrderRow>): (c: seq<TimeCell>)
    ensures |c| == |rows| && forall i :: 0 <= i < |rows| ==> c[i] == rows[i].delivered
  {
    seq(|rows|, i requires 0 <= i < |rows| => rows[i].delivered)
  }

  /** `orders["order_purchase_timestamp"] = pd.to_datetime(...)`: every
      purchase cell becomes the datetime it parses to, and nothing else in
      the row changes. */
  function ConvertPurchase(rows: seq<OrderRow>, parse: string -> Parsed): (r: seq<OrderRow>)
    requires ColumnParses(PurchaseColumn(rows), parse)
    ensures |r| == |rows|
    ensures forall i :: 0 <= i < |rows| ==>
      && r[i].purchase.Stamp? && Valid(r[i].purchase.at) == CellValue(rows[i].purchase, parse)
      && r[i].(purchase := rows[i].purchase) == rows[i]
  {
    seq(|rows|, i requires 0 <= i < |rows| =>
      rows[i].(purchase := Stamp(CellValue(rows[i].purchase, parse).at)))
  }

  /** `orders["order_delivered_customer_date"] = pd.to_datetime(...)`, in
      the same way for the delivered column. */
  function ConvertDelivered(rows: seq<OrderRow>, parse: string -> Parsed): (r: seq<OrderRow>)
    requires ColumnParses(DeliveredColumn(rows), parse)
    ensures |r| == |rows|
    ensures forall i :: 0 <= i < |rows| ==>
      && r[i].delivered.Stamp? && Valid(r[i].delivered.at) == CellValue(rows[i].delivered, parse)
      && r[i].(delivered := rows[i].delivered) == rows[i]
  {
    seq(|rows|, i requires 0 <= i < |rows| =>
      rows[i].(delivered := Stamp(CellValue(rows[i].delivered, parse).at)))
  }

  /** Both timestamp columns hold datetimes. */
  predicate Converted(rows: seq<OrderRow>) {
    forall i :: 0 <= i < |rows| ==> rows[i].purchase.Stamp? && rows[i].delivered.Stamp?
  }

  // ---------------------------------------------------------------------
  // Per-order sums (lines 19-36)
  // ---------------------------------------------------------------------

  /** The sum of `value` over the rows whose key is `k`: what the group of
      `k` adds up to. */
  function SumWhere<T, K(==)>(rows: seq<T>, key: T -> K, value: T -> real, k: K): real {
    if rows == [] then 0.0
    else SumWhere(rows[..|rows| - 1], key, value, k)
         + (if key(rows[|rows| - 1]) == k then value(rows[|rows| - 1]) else 0.0)
  }

  /** `rows.groupby(key).agg(total=(value, "sum"))`, as a dictionary from
      each key present to the sum over its group. */
  function GroupSum<T, K(==)>(rows: seq<T>, key: T -> K, value: T -> real): (agg: map<K, real>)
    ensures agg.Keys == set i | 0 <= i < |rows| :: key(rows[i])
    ensures forall k :: k in agg ==> agg[k] == SumWhere(rows, key, value, k)
  {
    if rows == [] then map[]
    else
      var init, last := rows[..|rows| - 1], rows[|rows| - 1];
      var agg := GroupSum(init, key, value);
      assert (set i | 0 <= i < |rows| :: key(rows[i]))
          == (set i | 0 <= i < |init| :: key(init[i])) + {key(last)} by {
        forall i | 0 <= i < |rows|
          ensures key(rows[i]) in (set i | 0 <= i < |init| :: key(init[i])) + {key(last)}
        {
          if i < |init| { assert rows[i] == init[i]; }
        }
        forall i | 0 <= i < |init|
          ensures key(init[i]) in (set i | 0 <= i < |rows| :: key(rows[i]))
        {
          assert init[i] == rows[i];
        }
      }
      assert key(last) !in agg ==> SumWhere(init, key, value, key(last)) == 0.0 by {
        if key(last) !in agg { SumWhereAbsent(init, key, value, key(last)); }
      }
      agg[key(last) := (if key(last) in agg then agg[key(last)] else 0.0) + value(last)]
  }

  /** A key no row carries sums to zero. */
  lemma {:induction false} SumWhereAbsent<T, K>(rows: seq<T>, key: T -> K, value: T -> real, k: K)
    requires forall i :: 0 <= i < |rows| ==> key(rows[i]) != k
    ensures SumWhere(rows, key, value, k) == 0.0
  {
    if rows != [] {
      SumWhereAbsent(rows[..|rows| - 1], key, value, k);
    }
  }

  /** Some row carries key `k`. */
  predicate HasKey<T, K(==)>(rows: seq<T>, key: T -> K, k: K) {
    exists i :: 0 <= i < |rows| && key(rows[i]) == k
  }

  function ItemOrder(r: ItemRow): string { r.orderId }
  function ItemPrice(r: ItemRow): real { r.price }
  function ItemFreight(r: ItemRow): real { r.freightValue }
  function PaymentOrder(r: PaymentRow): string { r.orderId }
  function PaymentValue(r: PaymentRow): real { r.paymentValue }

  /** `df.merge(agg, on="order_id", how="left")` for one aggregated column:
      the group's sum, or null when the order has no group. */
  function Lookup(agg: map<string, real>, k: string): Option<real> {
    if k in agg then Some(agg[k]) else None
  }

  /** Lines 39-40: `orders` left-joined with the item sums and the payment
      sums. Each aggregate has one row per order_id, so every order row comes
      out exactly once, in place, carrying its order's sums or nulls. */
  function JoinOrderTotals(orders: seq<OrderRow>, items: seq<ItemRow>, payments: seq<PaymentRow>)
    : (df: seq<Transaction>)
    requires Converted(orders)
    ensures |df| == |orders|
    ensures forall i :: 0 <= i < |orders| ==>
      var o, t := orders[i], df[i];
      && t.orderId == o.orderId && t.customerId == o.customerId && t.status == o.status
      && t.purchase == o.purchase.at && t.delivered == o.delivered.at
      && (t.revenue.Some? <==> HasKey(items, ItemOrder, o.orderId))
      && (t.revenue.Some? ==> t.revenue.value == SumWhere(items, ItemOrder, ItemPrice, o.orderId))
      && (t.freightValue.Some? <==> HasKey(items, ItemOrder, o.orderId))
      && (t.freightValue.Some? ==> t.freightValue.value == SumWhere(items, ItemOrder, ItemFreight, o.orderId))
      && (t.totalPayment.Some? <==> HasKey(payments, PaymentOrder, o.orderId))
      && (t.totalPayment.Some? ==> t.totalPayment.value == SumWhere(payments, PaymentOrder, PaymentValue, o.orderId))
      && t.reviewScore.None? && t.customerUniqueId.None? && t.deliveryDays.None?
  {
    var revenue := GroupSum(items, ItemOrder, ItemPrice);
    var freight := GroupSum(items, ItemOrder, ItemFreight);
    var payment := GroupSum(payments, PaymentOrder, PaymentValue);
    seq(|orders|, i requires 0 <= i < |orders| =>
      var o := orders[i];
      Transaction(o.orderId, o.customerId, o.status, o.purchase.at, o.delivered.at,
                  Lookup(revenue, o.orderId), Lookup(freight, o.orderId), Lookup(payment, o.orderId),
                  None, None, None))
  }

  // ---------------------------------------------------------------------
  // Many-to-many left joins (lines 41-46)
  // ---------------------------------------------------------------------

  /** The rows `df.merge(right, how="left")` emits for one left row `l`:
      one per right row with the same key, in the right table's order, or
      a single row with nulls when no right row matches. */
  function JoinRow<L, R(==,!new), K(==)>(l: L, right: seq<R>, lkey: L -> K, rkey: R -> K)
    : (out: seq<(L, Option<R>)>)
    ensures |out| >= 1
  {
    var m := Filter(right, r => rkey(r) == lkey(l));
    if m == [] then [(l, None)]
    else seq(|m|, i requires 0 <= i < |m| => (l, Some(m[i])))
  }

  /** Every row emitted for `l` is `l` with null or with a right row of the
      same key; null comes exactly when nothing matches, and then as the
      only row; each matching right row is emitted as often as it occurs. */
  lemma JoinRowSpec<L, R(!new), K>(l: L, right: seq<R>, lkey: L -> K, rkey: R -> K)
    ensures var out := JoinRow(l, right, lkey, rkey);
      && (forall p :: p in out ==> p.0 == l)
      && (forall p :: p in out && p.1.Some? ==> p.1.value in right && rkey(p.1.value) == lkey(l))
      && ((l, None) in out <==> forall r :: r in right ==> rkey(r) != lkey(l))
      && (forall r :: r in right && rkey(r) == lkey(l) ==> (l, Some(r)) in out)
      && (forall r :: Count(out, (l, Some(r))) == if rkey(r) == lkey(l) then Count(right, r) else 0)
      && ((forall r :: r in right ==> rkey(r) != lkey(l)) ==> out == [(l, None)])
  {
    var m := Filter(right, r => rkey(r) == lkey(l));
    var out := JoinRow(l, right, lkey, rkey);
    if m != [] {
      assert out == seq(|m|, i requires 0 <= i < |m| => (l, Some(m[i])));
      forall r ensures Count(out, (l, Some(r))) == Count(m, r) {
        PairCount(l, m, r);
      }
      assert forall r :: r in m ==> (l, Some(r)) in out by {
        forall r | r in m ensures (l, Some(r)) in out {
          var i :| 0 <= i < |m| && m[i] == r;
          assert out[i] == (l, Some(r));
        }
      }
    }
  }

  /** Pairing every element of `m` with `l` keeps each element's count. */
  lemma {:induction false} PairCount<L, R>(l: L, m: seq<R>, r: R)
    ensures Count(seq(|m|, i requires 0 <= i < |m| => (l, Some(m[i]))), (l, Some(r))) == Count(m, r)
  {
    var out := seq(|m|, i requires 0 <= i < |m| => (l, Some(m[i])));
    if m != [] {
      PairCount(l, m[1..], r);
      assert out[1..] == seq(|m[1..]|, i requires 0 <= i < |m[1..]| => (l, Some(m[1..][i])));
    }
  }

  /** `left.merge(right, on=key, how="left")`: the left rows in order, each
      expanded as JoinRow says, paired with the matching right row or null. */
  function LeftJoin<L, R(==,!new), K(==)>(left: seq<L>, right: seq<R>, lkey: L -> K, rkey: R -> K)
    : (out: seq<(L, Option<R>)>)
    ensures |out| >= |left|
  {
    if left == [] then [] else JoinRow(left[0], right, lkey, rkey) + LeftJoin(left[1..], right, lkey, rkey)
  }

  /** Joining a table split in two is joining each part: the left order is
      kept and each left row's block stays together. */
  lemma {:induction false} LeftJoinAppend<L, R(!new), K>(a: seq<L>, b: seq<L>, right: seq<R>, lkey: L -> K, rkey: R -> K)
    ensures LeftJoin(a + b, right, lkey, rkey) == LeftJoin(a, right, lkey, rkey) + LeftJoin(b, right, lkey, rkey)
  {
    if a == [] {
      assert a + b == b;
    } else {
      assert (a + b)[0] == a[0] && (a + b)[1..] == a[1..] + b;
      LeftJoinAppend(a[1..], b, right, lkey, rkey);
    }
  }

  /** Every pair a left join emits is a left row with null or with a
      right row of the same key; every left row is emitted at least once, and
      with null exactly when nothing matches it. */
  lemma {:induction false} LeftJoinRows<L, R(!new), K>(left: seq<L>, right: seq<R>, lkey: L -> K, rkey: R -> K)
    ensures forall p :: p in LeftJoin(left, right, lkey, rkey) ==>
      p.0 in left && (p.1.Some? ==> p.1.value in right && rkey(p.1.value) == lkey(p.0))
    ensures forall l :: l in left ==> exists x :: (l, x) in LeftJoin(left, right, lkey, rkey)
    ensures forall l :: l in left && (forall r :: r in right ==> rkey(r) != lkey(l)) ==>
      (l, None) in LeftJoin(left, right, lkey, rkey)
    ensures forall l, r :: l in left && r in right && rkey(r) == lkey(l) ==>
      (l, Some(r)) in LeftJoin(left, right, lkey, rkey)
  {
    if left != [] {
      LeftJoinRows(left[1..], right, lkey, rkey);
      JoinRowSpec(left[0], right, lkey, rkey);
      var head := JoinRow(left[0], right, lkey, rkey);
      assert head[0] in head;
      forall l | l in left ensures exists x :: (l, x) in LeftJoin(left, right, lkey, rkey) {
        if l == left[0] {
          assert head[0].0 == l;
          assert (l, head[0].1) in LeftJoin(left, right, lkey, rkey);
        } else {
          assert l in left[1..];
        }
      }
    }
  }

  function TxOrder(t: Transaction): string { t.orderId }
  function TxCustomer(t: Transaction): string { t.customerId }
  function ReviewOrder(r: ReviewRow): string { r.orderId }
  function CustomerKey(c: CustomerRow): string { c.customerId }

  /** The `review_score` column a review join gives a row. */
  function WithReview(p: (Transaction, Option<ReviewRow>)): Transaction {
    p.0.(reviewScore := if p.1.Some? then p.1.value.reviewScore else None)
  }

  /** The `customer_unique_id` column a customer join gives a row. */
  function WithCustomer(p: (Transaction, Option<CustomerRow>)): Transaction {
    p.0.(customerUniqueId := if p.1.Some? then Some(p.1.value.customerUniqueId) else None)
  }

  /** Line 41: `df.merge(reviews[["order_id", "review_score"]], on="order_id", how="left")`. */
  function JoinReviews(df: seq<Transaction>, reviews: seq<ReviewRow>): (out: seq<Transaction>)
    ensures |out| >= |df|
  {
    var pairs := LeftJoin(df, reviews, TxOrder, ReviewOrder);
    seq(|pairs|, i requires 0 <= i < |pairs| => WithReview(pairs[i]))
  }

  /** Lines 42-46: `df.merge(customers[["customer_id", "customer_unique_id"]], on="customer_id", how="left")`. */
  function JoinCustomers(df: seq<Transaction>, customers: seq<CustomerRow>): (out: seq<Transaction>)
    ensures |out| >= |df|
  {
    var pairs := LeftJoin(df, customers, TxCustomer, CustomerKey);
    seq(|pairs|, i requires 0 <= i < |pairs| => WithCustomer(pairs[i]))
  }

  // ---------------------------------------------------------------------
  // Delivery latency (lines 48-51)
  // ---------------------------------------------------------------------

  /** `(delivered - purchase).dt.days`: whole days rounded down, so a
      delivery dated before its purchase gives a negative count; null when
      either timestamp is. */
  function DeliveryDays(purchase: Option<int>, delivered: Option<int>): (d: Option<int>)
    ensures d.Some? <==> purchase.Some? && delivered.Some?
    ensures d.Some? ==> d.value * Numeric.SecondsPerDay <= delivered.value - purchase.value
                                                       < (d.value + 1) * Numeric.SecondsPerDay
  {
    if purchase.Some? && delivered.Some? then Some(Numeric.FloorDays(delivered.value - purchase.value))
    else None
  }

  /** `df["delivery_days"] = ...` over the joined table. */
  function AddDeliveryDays(df: seq<Transaction>): (out: seq<Transaction>)
    ensures |out| == |df|
    ensures forall i :: 0 <= i < |df| ==>
      out[i] == df[i].(deliveryDays := DeliveryDays(df[i].purchase, df[i].delivered))
  {
    seq(|df|, i requires 0 <= i < |df| => df[i].(deliveryDays := DeliveryDays(df[i].purchase, df[i].delivered)))
  }

  /** Lines 19-53 once the dates are converted: the table the builder returns. */
  function TransactionTable(orders: seq<OrderRow>, items: seq<ItemRow>, payments: seq<PaymentRow>,
                            reviews: seq<ReviewRow>, customers: seq<CustomerRow>): (df: seq<Transaction>)
    requires Converted(orders)
    ensures |df| >= |orders|
  {
    AddDeliveryDays(JoinCustomers(JoinReviews(JoinOrderTotals(orders, items, payments), reviews), customers))
  }

  /** The columns that come out of the joins unchanged: the order's own
      fields and its per-order sums. */
  function OrderPart(t: Transaction): (string, string, string, Option<int>, Option<int>, Option<real>, Option<real>, Option<real>) {
    (t.orderId, t.customerId, t.status, t.purchase, t.delivered, t.revenue, t.freightValue, t.totalPayment)
  }

  /** The order parts a table holds. */
  function OrderParts(df: seq<Transaction>): set<(string, string, string, Option<int>, Option<int>, Option<real>, Option<real>, Option<real>)> {
    set t | t in df :: OrderPart(t)
  }

  /** The review join keeps every order and invents none. */
  lemma ReviewJoinSameOrders(df: seq<Transaction>, reviews: seq<ReviewRow>)
    ensures OrderParts(JoinReviews(df, reviews)) == OrderParts(df)
  {
    var pairs := LeftJoin(df, reviews, TxOrder, ReviewOrder);
    var out := JoinReviews(df, reviews);
    LeftJoinRows(df, reviews, TxOrder, ReviewOrder);
    forall t | t in df ensures OrderPart(t) in OrderParts(out) {
      var x :| (t, x) in pairs;
      var j :| 0 <= j < |pairs| && pairs[j] == (t, x);
      assert out[j] in out && OrderPart(out[j]) == OrderPart(t);
    }
    forall t | t in out ensures OrderPart(t) in OrderParts(df) {
      var j :| 0 <= j < |out| && out[j] == t;
      assert pairs[j] in pairs;
    }
  }

  /** The customer join keeps every order and invents none. */
  lemma CustomerJoinSameOrders(df: seq<Transaction>, customers: seq<CustomerRow>)
    ensures OrderParts(JoinCustomers(df, customers)) == OrderParts(df)
  {
    var pairs := LeftJoin(df, customers, TxCustomer, CustomerKey);
    var out := JoinCustomers(df, customers);
    LeftJoinRows(df, customers, TxCustomer, CustomerKey);
    forall t | t in df ensures OrderPart(t) in OrderParts(out) {
      var x :| (t, x) in pairs;
      var j :| 0 <= j < |pairs| && pairs[j] == (t, x);
      assert out[j] in out && OrderPart(out[j]) == OrderPart(t);
    }
    forall t | t in out ensures OrderPart(t) in OrderParts(df) {
      var j :| 0 <= j < |out| && out[j] == t;
      assert pairs[j] in pairs;
    }
  }

  /** Adding `delivery_days` touches no order part. */
  lemma DeliveryDaysSameOrders(df: seq<Transaction>)
    ensures OrderParts(AddDeliveryDays(df)) == OrderParts(df)
  {
    var out := AddDeliveryDays(df);
    forall t | t in df ensures OrderPart(t) in OrderParts(out) {
      var j :| 0 <= j < |df| && df[j] == t;
      assert out[j] in out;
    }
    forall t | t in out ensures OrderPart(t) in OrderParts(df) {
      var j :| 0 <= j < |out| && out[j] == t;
      assert df[j] in df;
    }
  }

  /** The builder neither filters nor invents orders: every order row, whatever
      its status, reaches the output with its own fields and sums, and every
      output row carries the fields and sums of some order row. */
  lemma TransactionTableKeepsOrders(orders: seq<OrderRow>, items: seq<ItemRow>, payments: seq<PaymentRow>,
                                    reviews: seq<ReviewRow>, customers: seq<CustomerRow>)
    requires Converted(orders)
    ensures OrderParts(TransactionTable(orders, items, payments, reviews, customers))
         == OrderParts(JoinOrderTotals(orders, items, payments))
  {
    var base := JoinOrderTotals(orders, items, payments);
    var withReviews := JoinReviews(base, reviews);
    ReviewJoinSameOrders(base, reviews);
    CustomerJoinSameOrders(withReviews, customers);
    DeliveryDaysSameOrders(JoinCustomers(withReviews, customers));
  }

  /** Every order of the `orders` table, delivered or not, has a row in the
      built table carrying its ids, its status and its converted timestamps. */
  lemma NoStatusFilter(orders: seq<OrderRow>, items: seq<ItemRow>, payments: seq<PaymentRow>,
                       reviews: seq<ReviewRow>, customers: seq<CustomerRow>, i: int)
    requires Converted(orders) && 0 <= i < |orders|
    ensures exists t :: t in TransactionTable(orders, items, payments, reviews, customers)
                        && t.orderId == orders[i].orderId && t.customerId == orders[i].customerId
                        && t.status == orders[i].status
                        && t.purchase == orders[i].purchase.at && t.delivered == orders[i].delivered.at
  {
    TransactionTableKeepsOrders(orders, items, payments, reviews, customers);
    var base := JoinOrderTotals(orders, items, payments);
    assert base[i] in base;
    assert OrderPart(base[i]) in OrderParts(TransactionTable(orders, items, payments, reviews, customers));
  }

  /** When one order matches several reviews, the review join emits its row
      once per review, each carrying that review's score. */
  lemma ReviewJoinPerReview(df: seq<Transaction>, reviews: seq<ReviewRow>, t: Transaction, r: ReviewRow)
    requires t in df && r in reviews && r.orderId == t.orderId
    ensures t.(reviewScore := r.reviewScore) in JoinReviews(df, reviews)
  {
    var pairs := LeftJoin(df, reviews, TxOrder, ReviewOrder);
    LeftJoinRows(df, reviews, TxOrder, ReviewOrder);
    var j :| 0 <= j < |pairs| && pairs[j] == (t, Some(r));
    assert JoinReviews(df, reviews)[j] == WithReview(pairs[j]);
  }

  /** An order without reviews keeps its row, with a null score. */
  lemma ReviewJoinUnmatched(df: seq<Transaction>, reviews: seq<ReviewRow>, t: Transaction)
    requires t in df && forall r :: r in reviews ==> r.orderId != t.orderId
    ensures t.(reviewScore := None) in JoinReviews(df, reviews)
  {
    var pairs := LeftJoin(df, reviews, TxOrder, ReviewOrder);
    LeftJoinRows(df, reviews, TxOrder, ReviewOrder);
    var j :| 0 <= j < |pairs| && pairs[j] == (t, None);
    assert JoinReviews(df, reviews)[j] == WithReview(pairs[j]);
  }

  /** Every customer row matching a transaction's `customer_id` yields that
      transaction's row carrying the customer's unique id. */
  lemma CustomerJoinPerCustomer(df: seq<Transaction>, customers: seq<CustomerRow>, t: Transaction, c: CustomerRow)
    requires t in df && c in customers && c.customerId == t.customerId
    ensures t.(customerUniqueId := Some(c.customerUniqueId)) in JoinCustomers(df, customers)
  {
    var pairs := LeftJoin(df, customers, TxCustomer, CustomerKey);
    LeftJoinRows(df, customers, TxCustomer, CustomerKey);
    var j :| 0 <= j < |pairs| && pairs[j] == (t, Some(c));
    assert JoinCustomers(df, customers)[j] == WithCustomer(pairs[j]);
  }

  /** A transaction whose `customer_id` no customer row has keeps its row,
      with a null unique id. */
  lemma CustomerJoinUnmatched(df: seq<Transaction>, customers: seq<CustomerRow>, t: Transaction)
    requires t in df && forall c :: c in customers ==> c.customerId != t.customerId
    ensures t.(customerUniqueId := None) in JoinCustomers(df, customers)
  {
    var pairs := LeftJoin(df, customers, TxCustomer, CustomerKey);
    LeftJoinRows(df, customers, TxCustomer, CustomerKey);
    var j :| 0 <= j < |pairs| && pairs[j] == (t, None);
    assert JoinCustomers(df, customers)[j] == WithCustomer(pairs[j]);
  }

  // ---------------------------------------------------------------------
  // The builder
  // ---------------------------------------------------------------------

  /** What the builder returns: the table, or the error `pd.to_datetime`
      raised for the named column. */
  datatype BuildResult = Built(table: seq<Transaction>) | DateParseError(column: string)

  /** `build_transaction_table(data)`. It converts the two timestamp columns
      of the caller's `orders` table in place, one after the other, so a
      failure on the delivered column leaves the purchase column converted;
      then it joins the tables. No row is filtered by status, none is
      de-duplicated and no schema is checked. */
  method BuildTransactionTable(data: RawData, parse: string -> Parsed) returns (result: BuildResult)
    modifies data.orders
    ensures !ColumnParses(PurchaseColumn(old(data.orders.rows)), parse) ==>
      result == DateParseError("order_purchase_timestamp") && data.orders.rows == old(data.orders.rows)
    ensures ColumnParses(PurchaseColumn(old(data.orders.rows)), parse) ==>
      var converted := ConvertPurchase(old(data.orders.rows), parse);
      && (!ColumnParses(DeliveredColumn(converted), parse) ==>
           result == DateParseError("order_delivered_customer_date") && data.orders.rows == converted)
      && (ColumnParses(DeliveredColumn(converted), parse) ==>
           && data.orders.rows == ConvertDelivered(converted, parse)
           && Converted(data.orders.rows)
           && result == Built(TransactionTable(data.orders.rows, data.orderItems, data.payments,
                                               data.reviews, data.customers)))
  {
    var orders := data.orders;
    if !ColumnParses(PurchaseColumn(orders.rows), parse) {
      return DateParseError("order_purchase_timestamp");
    }
    orders.rows := ConvertPurchase(orders.rows, parse);
    if !ColumnParses(DeliveredColumn(orders.rows), parse) {
      return DateParseError("order_delivered_customer_date");
    }
    orders.rows := ConvertDelivered(orders.rows, parse);
    result := Built(TransactionTable(orders.rows, data.orderItems, data.payments, data.reviews, data.customers));
  }

  /** The conversion changes only the two timestamp columns: every row keeps
      its order id, customer id and status, and the row count is unchanged. */
  lemma ConversionKeepsOtherColumns(rows: seq<OrderRow>, parse: string -> Parsed)
    requires ColumnParses(PurchaseColumn(rows), parse)
    requires ColumnParses(DeliveredColumn(ConvertPurchase(rows, parse)), parse)
    ensures var r := ConvertDelivered(ConvertPurchase(rows, parse), parse);
      && |r| == |rows| && Converted(r)
      && forall i :: 0 <= i < |rows| ==>
           r[i].orderId == rows[i].orderId && r[i].customerId == rows[i].customerId
           && r[i].status == rows[i].status
           && Valid(r[i].purchase.at) == CellValue(rows[i].purchase, parse)
           && Valid(r[i].delivered.at) == CellValue(rows[i].delivered, parse)
  {
    var p := ConvertPurchase(rows, parse);
    assert forall i :: 0 <= i < |rows| ==> p[i].delivered == rows[i].delivered;
  }
}
