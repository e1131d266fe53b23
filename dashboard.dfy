/** The decision arithmetic of the dashboard (app/dashboard.py): the
    suggested risk threshold, the revenue-by-segment bar collapse, the
    percentage clip, the opportunity-sizing figures and reading the churn
    window back out of the flag column's name. The page around them is
    not modelled. */
module Dashboard {
  import opened Common
  import Numeric
  import Text

  // ---------------------------------------------------------------------
  // compute_suggested_threshold (lines 357-363)
  // ---------------------------------------------------------------------

  function Clamp(x: int, lo: int, hi: int): int
    requires lo <= hi
  {
    if x < lo then lo else if x > hi then hi else x
  }

  /** `int(round(q / 5) * 5)`: `q` snapped to a multiple of five. */
  function Snap(q70: real): (s: int)
    ensures s % 5 == 0
    ensures s as real - 2.5 <= q70 <= s as real + 2.5
  {
    Numeric.RoundHalfEven(q70 / 5.0) * 5
  }

  /** `compute_suggested_threshold(pcts)`, with the 70th percentile of
      `pcts` given as `q70`: 60 for an empty series, otherwise the snapped
      percentile clamped to [10, 95]. Either way a multiple of five in
      [10, 95]. */
  function SuggestedThreshold(pcts: seq<real>, q70: real): (t: int)
    ensures |pcts| == 0 ==> t == 60
    ensures 10 <= t <= 95 && t % 5 == 0
    ensures |pcts| > 0 && 10 <= Snap(q70) <= 95 ==> t == Snap(q70)
    ensures |pcts| > 0 && Snap(q70) < 10 ==> t == 10
    ensures |pcts| > 0 && Snap(q70) > 95 ==> t == 95
  {
    if |pcts| == 0 then 60 else Clamp(Snap(q70), 10, 95)
  }

  /** The snapped value is the multiple of five nearest `q70`, and on a
      tie the one whose quotient by five is even. */
  lemma SnapNearest(q70: real, j: int)
    ensures Snap(q70) % 5 == 0
    ensures -2.5 <= q70 - Snap(q70) as real <= 2.5
    ensures Abs(q70 - Snap(q70) as real) <= Abs(q70 - (5 * j) as real)
    ensures Abs(q70 - Snap(q70) as real) == 2.5 ==> (Snap(q70) / 5) % 2 == 0
  {
    var x := q70 / 5.0;
    var r := Numeric.RoundHalfEven(x);
    assert q70 == 5.0 * x;
    assert Snap(q70) == 5 * r && Snap(q70) / 5 == r;
    NearestInteger(x, r, j);
    assert Abs(q70 - Snap(q70) as real) == 5.0 * Abs(x - r as real);
    assert Abs(q70 - (5 * j) as real) == 5.0 * Abs(x - j as real);
  }

  /** An integer within one half of `x` is at least as near as any other. */
  lemma NearestInteger(x: real, r: int, j: int)
    requires r as real - 0.5 <= x <= r as real + 0.5
    ensures Abs(x - r as real) <= Abs(x - j as real)
  {
    if j < r {
      assert j as real <= r as real - 1.0;
    } else if j > r {
      assert j as real >= r as real + 1.0;
    }
  }

  function Abs(x: real): real { if x < 0.0 then -x else x }

  /** A higher percentile never suggests a lower threshold. */
  lemma SuggestedThresholdMonotone(pcts: seq<real>, q1: real, q2: real)
    requires q1 <= q2
    ensures SuggestedThreshold(pcts, q1) <= SuggestedThreshold(pcts, q2)
  {
    Numeric.RoundHalfEvenMonotone(q1 / 5.0, q2 / 5.0);
  }

  // ---------------------------------------------------------------------
  // The percentage clip (line 654)
  // ---------------------------------------------------------------------

  /** `(p * 100).clip(0, 100)`: a probability as a percentage in [0, 100],
      unchanged when already inside, the nearer bound otherwise. */
  function ClipPercent(p: real): (c: real)
    ensures 0.0 <= c <= 100.0
    ensures 0.0 <= p <= 1.0 ==> c == p * 100.0
    ensures p < 0.0 ==> c == 0.0
    ensures p > 1.0 ==> c == 100.0
  {
    var x := p * 100.0;
    if x < 0.0 then 0.0 else if x > 100.0 then 100.0 else x
  }

  /** The clip keeps the order of the probabilities. */
  lemma ClipPercentMonotone(p: real, q: real)
    requires p <= q
    ensures ClipPercent(p) <= ClipPercent(q)
  {
  }

  /** The column `churn_probability_%`, one clipped value per row. */
  function ClipPercents(probabilities: seq<real>): (pcts: seq<real>)
    ensures |pcts| == |probabilities|
    ensures forall i :: 0 <= i < |pcts| ==> pcts[i] == ClipPercent(probabilities[i])
    ensures forall i :: 0 <= i < |pcts| ==> 0.0 <= pcts[i] <= 100.0
  {
    seq(|probabilities|, i requires 0 <= i < |probabilities| => ClipPercent(probabilities[i]))
  }

  // ---------------------------------------------------------------------
  // Revenue by segment, top 10 + "Others" (lines 565-573)
  // ---------------------------------------------------------------------

  /** One bar: a segment and its revenue. */
  datatype Bar = Bar(segment: string, revenue: real)

  const MaxBars: int := 10

  function Total(bars: seq<Bar>): real {
    if bars == [] then 0.0 else bars[0].revenue + Total(bars[1..])
  }

  lemma {:induction false} TotalConcat(a: seq<Bar>, b: seq<Bar>)
    ensures Total(a + b) == Total(a) + Total(b)
  {
    if a != [] {
      assert (a + b)[1..] == a[1..] + b;
      TotalConcat(a[1..], b);
    } else {
      assert a + b == b;
    }
  }

  predicate Descending(bars: seq<Bar>) {
    forall i, j :: 0 <= i <= j < |bars| ==> bars[i].revenue >= bars[j].revenue
  }

  /** The bars actually plotted from the revenue-sorted segments: all of
      them when there are at most ten, otherwise the first ten and one
      "Others" bar carrying the rest. The plotted total is the total over
      every segment. */
  function CollapseBars(bars: seq<Bar>): (plot: seq<Bar>)
    ensures |bars| <= MaxBars ==> plot == bars
    ensures |bars| > MaxBars ==>
      && |plot| == MaxBars + 1
      && plot[..MaxBars] == bars[..MaxBars]
      && plot[MaxBars] == Bar("Others", Total(bars[MaxBars..]))
    ensures Total(plot) == Total(bars)
  {
    if |bars| > MaxBars then
      var plot := bars[..MaxBars] + [Bar("Others", Total(bars[MaxBars..]))];
      TotalConcat(bars[..MaxBars], [Bar("Others", Total(bars[MaxBars..]))]);
      TotalConcat(bars[..MaxBars], bars[MaxBars..]);
      assert bars[..MaxBars] + bars[MaxBars..] == bars;
      assert plot[..MaxBars] == bars[..MaxBars];
      plot
    else bars
  }

  /** With the segments sorted by revenue, every segment shown on its own
      earns at least as much as any segment folded into "Others". */
  lemma CollapseKeepsLargest(bars: seq<Bar>, i: int, j: int)
    requires Descending(bars) && |bars| > MaxBars
    requires 0 <= i < MaxBars <= j < |bars|
    ensures CollapseBars(bars)[i].revenue >= bars[j].revenue
  {
    assert CollapseBars(bars)[i] == CollapseBars(bars)[..MaxBars][i] == bars[i];
  }

  // ---------------------------------------------------------------------
  // Opportunity sizing (lines 685-697)
  // ---------------------------------------------------------------------

  /** A scored customer: the clipped churn probability in percent and the
      customer's revenue. */
  datatype ScoredCustomer = ScoredCustomer(probabilityPct: real, monetaryTotal: real)

  /** The row mask `churn_probability_% >= threshold`. */
  function AtRisk(threshold: int): ScoredCustomer -> bool {
    (r: ScoredCustomer) => r.probabilityPct >= threshold as real
  }

  /** `segments_scored[segments_scored["churn_probability_%"] >= threshold]`. */
  function HighRisk(rows: seq<ScoredCustomer>, threshold: int): (high: seq<ScoredCustomer>)
    ensures forall r :: r in high <==> r in rows && r.probabilityPct >= threshold as real
    ensures forall r :: Count(high, r) == if r.probabilityPct >= threshold as real then Count(rows, r) else 0
    ensures IsSubsequence(high, rows)
    ensures |high| <= |rows|
  {
    var high := Filter(rows, AtRisk(threshold));
    SubsequenceShorter(high, rows);
    high
  }

  function Revenue(rows: seq<ScoredCustomer>): real {
    if rows == [] then 0.0 else rows[0].monetaryTotal + Revenue(rows[1..])
  }

  predicate NonNegativeRevenue(rows: seq<ScoredCustomer>) {
    forall i :: 0 <= i < |rows| ==> rows[i].monetaryTotal >= 0.0
  }

  /** `a / b * 100 if b else 0.0`: a percentage with Python's zero guard. */
  function Percent(a: real, b: real): (p: real)
    ensures b == 0.0 ==> p == 0.0
    ensures b > 0.0 && 0.0 <= a <= b ==> 0.0 <= p <= 100.0
  {
    if b != 0.0 then
      assert b > 0.0 && 0.0 <= a <= b ==> a / b <= 1.0;
      a / b * 100.0
    else 0.0
  }

  /** The figures of the opportunity-sizing panel. */
  datatype Opportunity = Opportunity(
    totalCustomers: int, highRiskCustomers: int, pctAbove: real,
    totalRevenue: real, revenueAtRisk: real, revenueAtRiskShare: real,
    projectedUplift: real)

  /** The panel for a risk threshold in percent and a win-back rate in
      percent. No more customers are at risk than were scored; both shares
      are 0 when nothing was scored or nothing earned. */
  function OpportunitySizing(rows: seq<ScoredCustomer>, threshold: int, upliftRate: int): (o: Opportunity)
    ensures o.totalCustomers == |rows|
    ensures o.highRiskCustomers == |HighRisk(rows, threshold)| <= o.totalCustomers
    ensures o.pctAbove == Percent(o.highRiskCustomers as real, o.totalCustomers as real)
    ensures o.revenueAtRiskShare == Percent(o.revenueAtRisk, o.totalRevenue)
    ensures o.totalCustomers == 0 ==> o.pctAbove == 0.0
    ensures o.totalCustomers > 0 ==> 0.0 <= o.pctAbove <= 100.0
    ensures o.totalRevenue == Revenue(rows) && o.revenueAtRisk == Revenue(HighRisk(rows, threshold))
    ensures o.totalRevenue == 0.0 ==> o.revenueAtRiskShare == 0.0
    ensures o.projectedUplift == Uplift(o.revenueAtRisk, upliftRate)
  {
    var high := HighRisk(rows, threshold);
    var total := |rows|;
    var pctAbove := Percent(|high| as real, total as real);
    var totalRevenue := Revenue(rows);
    var atRisk := Revenue(high);
    Opportunity(total, |high|, pctAbove, totalRevenue, atRisk,
                Percent(atRisk, totalRevenue), Uplift(atRisk, upliftRate))
  }

  /** The revenue of any filtered selection of non-negative rows is between
      nothing and the whole. */
  lemma {:induction false} FilteredRevenueBounds(rows: seq<ScoredCustomer>, p: ScoredCustomer -> bool)
    requires NonNegativeRevenue(rows)
    ensures 0.0 <= Revenue(Filter(rows, p)) <= Revenue(rows)
  {
    if rows != [] {
      FilteredRevenueBounds(rows[1..], p);
      var rest := Filter(rows[1..], p);
      if p(rows[0]) {
        assert Filter(rows, p) == [rows[0]] + rest;
        assert ([rows[0]] + rest)[1..] == rest;
      }
    }
  }

  /** With non-negative revenues the revenue at risk is a share of the
      total in [0, 100] percent, and the projected win-back never exceeds
      the revenue at risk for a rate of at most 100 percent. */
  lemma OpportunityBounds(rows: seq<ScoredCustomer>, threshold: int, upliftRate: int)
    requires NonNegativeRevenue(rows) && 0 <= upliftRate <= 100
    ensures var o := OpportunitySizing(rows, threshold, upliftRate);
      && 0.0 <= o.revenueAtRisk <= o.totalRevenue
      && 0.0 <= o.revenueAtRiskShare <= 100.0
      && 0.0 <= o.projectedUplift <= o.revenueAtRisk
  {
    FilteredRevenueBounds(rows, AtRisk(threshold));
    UpliftWithin(Revenue(HighRisk(rows, threshold)), upliftRate);
  }

  /** `revenue_at_risk * (uplift_rate / 100)`: the revenue won back at a
      win-back rate in percent. */
  function Uplift(atRisk: real, upliftRate: int): (u: real)
    ensures upliftRate == 0 ==> u == 0.0
    ensures upliftRate == 100 ==> u == atRisk
    ensures atRisk >= 0.0 && upliftRate >= 0 ==> u >= 0.0
  {
    atRisk * (upliftRate as real / 100.0)
  }

  lemma UpliftWithin(atRisk: real, upliftRate: int)
    requires 0.0 <= atRisk && 0 <= upliftRate <= 100
    ensures 0.0 <= Uplift(atRisk, upliftRate) <= atRisk
  {
    var f := upliftRate as real / 100.0;
    assert 0.0 <= f <= 1.0;
    assert Uplift(atRisk, upliftRate) == atRisk * f;
    assert 0.0 <= atRisk * f;
    assert atRisk * f <= atRisk * 1.0;
  }

  /** Raising the threshold never adds a customer at risk nor, with
      non-negative revenues, revenue at risk. */
  lemma {:induction false} HighRiskAntitone(rows: seq<ScoredCustomer>, t1: int, t2: int)
    requires t1 <= t2
    ensures |HighRisk(rows, t2)| <= |HighRisk(rows, t1)|
    ensures NonNegativeRevenue(rows) ==> Revenue(HighRisk(rows, t2)) <= Revenue(HighRisk(rows, t1))
  {
    FilterStronger(rows, AtRisk(t1), AtRisk(t2));
  }

  /** A stronger filter keeps no more rows and, with non-negative
      revenues, no more revenue. */
  lemma {:induction false} FilterStronger(rows: seq<ScoredCustomer>, p1: ScoredCustomer -> bool, p2: ScoredCustomer -> bool)
    requires forall r :: p2(r) ==> p1(r)
    ensures |Filter(rows, p2)| <= |Filter(rows, p1)|
    ensures NonNegativeRevenue(rows) ==> Revenue(Filter(rows, p2)) <= Revenue(Filter(rows, p1))
  {
    if rows != [] {
      FilterStronger(rows[1..], p1, p2);
      var r1, r2 := Filter(rows[1..], p1), Filter(rows[1..], p2);
      if p1(rows[0]) {
        assert Filter(rows, p1) == [rows[0]] + r1;
        assert ([rows[0]] + r1)[1..] == r1;
      }
      if p2(rows[0]) {
        assert Filter(rows, p2) == [rows[0]] + r2;
        assert ([rows[0]] + r2)[1..] == r2;
      }
    }
  }

  // ---------------------------------------------------------------------
  // The segments table's schema check (lines 404-408)
  // ---------------------------------------------------------------------

  /** `required_seg_cols`, in the order `sorted` lists them. */
  const RequiredSegmentColumns: seq<string> := ["customer_unique_id", "monetary_total", "segment_name"]

  /** `[c]` when the table lacks column `c`, else nothing. */
  function IfAbsent(columns: seq<string>, c: string): seq<string> {
    if c in columns then [] else [c]
  }

  /** `sorted(required_seg_cols - set(segments.columns))`: the required
      columns the segments table lacks, in sorted order. The page stops
      unless it is empty. */
  function SegmentsMissing(columns: seq<string>): (m: seq<string>)
    ensures forall c :: c in m <==> c in RequiredSegmentColumns && c !in columns
    ensures m == [] <==> forall c :: c in RequiredSegmentColumns ==> c in columns
  {
    var req := RequiredSegmentColumns;
    IfAbsent(columns, req[0]) + IfAbsent(columns, req[1]) + IfAbsent(columns, req[2])
  }

  // ---------------------------------------------------------------------
  // The churn window (lines 469-470, 525-526)
  // ---------------------------------------------------------------------

  const ChurnPrefix: string := "churn_"

  /** `[c for c in columns if c.startswith("churn_")][0]`, or nothing when
      no column starts that way: the first such column. */
  function ChurnColumn(columns: seq<string>): (col: Option<string>)
    ensures col.None? <==> forall i :: 0 <= i < |columns| ==> !Text.StartsWith(columns[i], ChurnPrefix)
    ensures col.Some? ==> exists i :: (0 <= i < |columns| && columns[i] == col.value
      && Text.StartsWith(col.value, ChurnPrefix)
      && forall j :: 0 <= j < i ==> !Text.StartsWith(columns[j], ChurnPrefix))
  {
    if columns == [] then None
    else if Text.StartsWith(columns[0], ChurnPrefix) then Some(columns[0])
    else
      var rest := ChurnColumn(columns[1..]);
      assert forall i :: 0 < i < |columns| ==> columns[i] == columns[1..][i - 1];
      if rest.Some? then
        var i :| 0 <= i < |columns[1..]| && columns[1..][i] == rest.value
          && Text.StartsWith(rest.value, ChurnPrefix)
          && forall j :: 0 <= j < i ==> !Text.StartsWith(columns[1..][j], ChurnPrefix);
        assert columns[i + 1] == rest.value;
        rest
      else rest
  }

  /** The first column starting with `churn_` is the one chosen. */
  lemma {:induction false} ChurnColumnFirst(columns: seq<string>, k: int)
    requires 0 <= k < |columns| && Text.StartsWith(columns[k], ChurnPrefix)
    requires forall j :: 0 <= j < k ==> !Text.StartsWith(columns[j], ChurnPrefix)
    ensures ChurnColumn(columns) == Some(columns[k])
  {
    if k > 0 {
      ChurnColumnFirst(columns[1..], k - 1);
    }
  }

  /** `churn_col.replace("churn_", "")`: the window label shown on the
      page. */
  function ChurnWindowLabel(col: string): (w: string)
    ensures |w| <= |col|
    ensures forall i :: 0 <= i < |w| ==> w[i] in col
  {
    Text.Replace(col, ChurnPrefix, "")
  }

  /** Removing the prefix from `"churn_" + str(w) + "d"` leaves
      `str(w) + "d"`: the rest of the name holds no `c`, so nothing else is
      removed. */
  lemma ChurnWindowLabelOfName(w: int)
    ensures ChurnWindowLabel(ChurnPrefix + Text.IntToString(w) + "d") == Text.IntToString(w) + "d"
  {
    var rest := Text.IntToString(w) + "d";
    var name := ChurnPrefix + rest;
    assert name == ChurnPrefix + Text.IntToString(w) + "d";
    assert name[..|ChurnPrefix|] == ChurnPrefix;
    assert name[|ChurnPrefix|..] == rest;
    assert 'c' !in rest by {
      forall i | 0 <= i < |rest| ensures rest[i] != 'c' {
        if i < |Text.IntToString(w)| {
          assert rest[i] == Text.IntToString(w)[i];
        }
      }
    }
    Text.ReplaceAbsent(rest, ChurnPrefix, "");
  }
}
