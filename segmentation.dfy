/** Quantile RFM scoring (src/analysis/segmentation.py). `pd.qcut` itself is
    taken as given: its sorted, de-duplicated bin edges are an input, and
    the model states how a value falls into those right-closed bins. */
module Segmentation {
  import Numeric
  import Text
  import opened Features

  // ---------------------------------------------------------------------
  // pd.qcut(s, q, duplicates="drop") on given edges
  // ---------------------------------------------------------------------

  predicate StrictlyIncreasing(s: seq<real>) {
    forall i, j :: 0 <= i < j < |s| ==> s[i] < s[j]
  }

  /** What `pd.qcut` guarantees about the edges it cut `values` with: at
      most `q + 1` of them after duplicates are dropped, strictly
      increasing, and, when there are at least two, enclosing every value.
      (pandas puts the outer edges at the minimum and the maximum; the
      predicate does not require that they are attained.) */
  predicate QcutEdges(values: seq<real>, edges: seq<real>, q: int) {
    && |edges| <= q + 1
    && StrictlyIncreasing(edges)
    && (|edges| >= 2 ==> forall i :: 0 <= i < |values| ==> edges[0] <= values[i] <= edges[|edges| - 1])
  }

  /** The number of edges strictly below `x` (`searchsorted(x, side="left")`). */
  function CountBelow(edges: seq<real>, x: real): (n: nat)
    ensures n <= |edges|
  {
    if edges == [] then 0 else (if edges[0] < x then 1 else 0) + CountBelow(edges[1..], x)
  }

  /** Over increasing edges the edges below `x` are exactly a prefix. */
  lemma {:induction false} CountBelowPrefix(edges: seq<real>, x: real)
    requires StrictlyIncreasing(edges)
    ensures forall i :: 0 <= i < CountBelow(edges, x) ==> edges[i] < x
    ensures forall i :: CountBelow(edges, x) <= i < |edges| ==> x <= edges[i]
  {
    if edges != [] {
      var rest := edges[1..];
      CountBelowPrefix(rest, x);
      assert forall i :: 0 <= i < |rest| ==> rest[i] == edges[i + 1];
      if edges[0] >= x {
        assert forall i :: 0 <= i < |rest| ==> x <= rest[i];
        CountBelowNone(rest, x);
      }
    }
  }

  lemma {:induction false} CountBelowNone(edges: seq<real>, x: real)
    requires forall i :: 0 <= i < |edges| ==> x <= edges[i]
    ensures CountBelow(edges, x) == 0
  {
    if edges != [] {
      CountBelowNone(edges[1..], x);
    }
  }

  /** More value, no fewer edges below it. */
  lemma {:induction false} CountBelowMonotone(edges: seq<real>, x: real, y: real)
    requires x <= y
    ensures CountBelow(edges, x) <= CountBelow(edges, y)
  {
    if edges != [] {
      CountBelowMonotone(edges[1..], x, y);
    }
  }

  /** The category code of `x` among the bins `(e0, e1], (e1, e2], ...`,
      the first bin also holding `e0` itself (`include_lowest`). */
  function BinCode(edges: seq<real>, x: real): (code: int)
    requires |edges| >= 2 && StrictlyIncreasing(edges)
    requires edges[0] <= x <= edges[|edges| - 1]
    ensures 0 <= code <= |edges| - 2
    ensures code == 0 ==> edges[0] <= x <= edges[1]
    ensures code > 0 ==> edges[code] < x <= edges[code + 1]
  {
    CountBelowPrefix(edges, x);
    if x == edges[0] then 0
    else
      assert edges[0] < x;
      CountBelow(edges, x) - 1
  }

  /** A larger value never lands in a lower bin. */
  lemma BinCodeMonotone(edges: seq<real>, x: real, y: real)
    requires |edges| >= 2 && StrictlyIncreasing(edges)
    requires edges[0] <= x <= y <= edges[|edges| - 1]
    ensures BinCode(edges, x) <= BinCode(edges, y)
  {
    CountBelowMonotone(edges, x, y);
    if x == edges[0] || y == edges[0] {
    } else {
      CountBelowPrefix(edges, x);
    }
  }

  /** The lowest value is in the first bin, the highest in the last. */
  lemma BinCodeEnds(edges: seq<real>)
    requires |edges| >= 2 && StrictlyIncreasing(edges)
    ensures BinCode(edges, edges[0]) == 0
    ensures BinCode(edges, edges[|edges| - 1]) == |edges| - 2
  {
    var top := edges[|edges| - 1];
    CountBelowPrefix(edges, top);
    var n := CountBelow(edges, top);
    assert edges[|edges| - 2] < top;
  }

  // ---------------------------------------------------------------------
  // Code to label (line 27)
  // ---------------------------------------------------------------------

  function Max(a: int, b: int): int { if a >= b then a else b }

  /** `round(code / max(k - 1, 1) * (n - 1))`: a code among `k` bins spread
      over `n` label positions. It is a valid position, the first code goes
      to the first label and, with two bins or more, the last code to the
      last label. */
  function ScaledIndex(code: int, k: int, n: int): (idx: int)
    requires k >= 1 && 0 <= code <= k - 1 && n >= 1
    ensures 0 <= idx <= n - 1
    ensures code == 0 ==> idx == 0
    ensures k >= 2 && code == k - 1 ==> idx == n - 1
  {
    var x := Position(code, k, n);
    PositionBounds(code, k, n);
    Numeric.RoundHalfEvenMonotone(0.0, x);
    Numeric.RoundHalfEvenMonotone(x, (n - 1) as real);
    Numeric.RoundHalfEvenOfInt(0);
    Numeric.RoundHalfEvenOfInt(n - 1);
    Numeric.RoundHalfEven(x)
  }

  /** The unrounded position `code / max(k - 1, 1) * (n - 1)`. */
  function Position(code: int, k: int, n: int): real
    requires k >= 1
  {
    code as real / Max(k - 1, 1) as real * (n - 1) as real
  }

  /** The unrounded position lies in [0, n - 1], at 0 for the first code
      and, with two bins or more, at n - 1 for the last. */
  lemma PositionBounds(code: int, k: int, n: int)
    requires k >= 1 && 0 <= code <= k - 1 && n >= 1
    ensures 0.0 <= Position(code, k, n) <= (n - 1) as real
    ensures code == 0 ==> Position(code, k, n) == 0.0
    ensures k >= 2 && code == k - 1 ==> Position(code, k, n) == (n - 1) as real
  {
    var d := Max(k - 1, 1);
    var ratio := code as real / d as real;
    assert Position(code, k, n) == ratio * (n - 1) as real;
    assert 0.0 <= ratio <= 1.0 by {
      QuotientAtMostOne(code as real, d as real);
    }
    if k >= 2 && code == k - 1 {
      assert d == code;
    }
    ProductBounds(ratio, (n - 1) as real);
  }

  lemma QuotientAtMostOne(a: real, d: real)
    requires 0.0 <= a <= d && d > 0.0
    ensures 0.0 <= a / d <= 1.0
  {
  }

  lemma ProductBounds(a: real, b: real)
    requires 0.0 <= a <= 1.0 && 0.0 <= b
    ensures 0.0 <= a * b <= b
  {
    assert a * b <= 1.0 * b;
  }

  lemma QuotientMonotone(a: real, b: real, d: real)
    requires a <= b && d > 0.0
    ensures a / d <= b / d
  {
  }

  lemma ProductMonotone(a: real, b: real, c: real)
    requires a <= b && 0.0 <= c
    ensures a * c <= b * c
  {
  }

  /** A higher code never gets an earlier label position. */
  lemma ScaledIndexMonotone(c1: int, c2: int, k: int, n: int)
    requires k >= 1 && 0 <= c1 <= c2 <= k - 1 && n >= 1
    ensures ScaledIndex(c1, k, n) <= ScaledIndex(c2, k, n)
  {
    var d := Max(k - 1, 1) as real;
    QuotientMonotone(c1 as real, c2 as real, d);
    ProductMonotone(c1 as real / d, c2 as real / d, (n - 1) as real);
    Numeric.RoundHalfEvenMonotone(Position(c1, k, n), Position(c2, k, n));
  }

  // ---------------------------------------------------------------------
  // Reverse scoring (lines 30-32)
  // ---------------------------------------------------------------------

  function SeqMax(s: seq<int>): (m: int)
    requires |s| >= 1
    ensures m in s && forall i :: 0 <= i < |s| ==> s[i] <= m
  {
    if |s| == 1 then s[0] else if s[0] >= SeqMax(s[1..]) then s[0] else SeqMax(s[1..])
  }

  function SeqMin(s: seq<int>): (m: int)
    requires |s| >= 1
    ensures m in s && forall i :: 0 <= i < |s| ==> m <= s[i]
  {
    if |s| == 1 then s[0] else if s[0] <= SeqMin(s[1..]) then s[0] else SeqMin(s[1..])
  }

  /** `out.max() + out.min() - out`: the scores mirrored within their own
      range. */
  function ReverseScores(out: seq<int>): (r: seq<int>)
    ensures |r| == |out|
    ensures |out| >= 1 ==> forall i :: 0 <= i < |r| ==> SeqMin(out) <= r[i] <= SeqMax(out)
  {
    if out == [] then []
    else
      var hi, lo := SeqMax(out), SeqMin(out);
      var r := seq(|out|, i requires 0 <= i < |out| => hi + lo - out[i]);
      assert forall i :: 0 <= i < |r| ==> r[i] == hi + lo - out[i] && lo <= out[i] <= hi;
      r
  }

  /** Mirroring turns a larger score into a smaller one. */
  lemma ReverseAntitone(out: seq<int>, i: int, j: int)
    requires 0 <= i < |out| && 0 <= j < |out| && out[i] <= out[j]
    ensures ReverseScores(out)[i] >= ReverseScores(out)[j]
  {
  }

  lemma MaxIs(s: seq<int>, k: int)
    requires 0 <= k < |s| && forall i :: 0 <= i < |s| ==> s[i] <= s[k]
    ensures SeqMax(s) == s[k]
  {
  }

  lemma MinIs(s: seq<int>, k: int)
    requires 0 <= k < |s| && forall i :: 0 <= i < |s| ==> s[k] <= s[i]
    ensures SeqMin(s) == s[k]
  {
  }

  lemma ReverseAt(out: seq<int>, i: int)
    requires 0 <= i < |out|
    ensures ReverseScores(out)[i] == SeqMax(out) + SeqMin(out) - out[i]
  {
  }

  /** The smallest score is mirrored onto the largest. */
  lemma ReverseMaxAt(out: seq<int>, k: int)
    requires 0 <= k < |out| && out[k] == SeqMin(out)
    ensures SeqMax(ReverseScores(out)) == SeqMax(out)
  {
    ReverseAt(out, k);
    MaxIs(ReverseScores(out), k);
  }

  /** The largest score is mirrored onto the smallest. */
  lemma ReverseMinAt(out: seq<int>, k: int)
    requires 0 <= k < |out| && out[k] == SeqMax(out)
    ensures SeqMin(ReverseScores(out)) == SeqMin(out)
  {
    ReverseAt(out, k);
    MinIs(ReverseScores(out), k);
  }

  /** Mirroring keeps the largest and the smallest score. */
  lemma ReverseKeepsRange(out: seq<int>)
    requires |out| >= 1
    ensures SeqMax(ReverseScores(out)) == SeqMax(out)
    ensures SeqMin(ReverseScores(out)) == SeqMin(out)
  {
    var iLo :| 0 <= iLo < |out| && out[iLo] == SeqMin(out);
    var iHi :| 0 <= iHi < |out| && out[iHi] == SeqMax(out);
    ReverseMaxAt(out, iLo);
    ReverseMinAt(out, iHi);
  }

  /** Mirroring twice gives the scores back. */
  lemma ReverseTwice(out: seq<int>)
    ensures ReverseScores(ReverseScores(out)) == out
  {
    if out != [] {
      var r := ReverseScores(out);
      ReverseKeepsRange(out);
      var rr := ReverseScores(r);
      forall i | 0 <= i < |out| ensures rr[i] == out[i] {
        ReverseAt(out, i);
        ReverseAt(r, i);
      }
      assert rr == out;
    }
  }

  // ---------------------------------------------------------------------
  // _qcut_score (lines 4-34)
  // ---------------------------------------------------------------------

  /** The label positions of the values (line 27). */
  function ScaledCodes(values: seq<real>, edges: seq<real>, n: int): (idx: seq<int>)
    requires |edges| >= 2 && n >= 1
    requires QcutEdges(values, edges, |edges| - 1)
    ensures |idx| == |values| && forall i :: 0 <= i < |idx| ==> 0 <= idx[i] < n
  {
    seq(|values|, i requires 0 <= i < |values| => ScaledIndex(BinCode(edges, values[i]), |edges| - 1, n))
  }

  /** The scores before any reversal (line 28). */
  function Labelled(values: seq<real>, edges: seq<real>, labels: seq<int>): (out: seq<int>)
    requires |edges| >= 2 && |labels| >= 1
    requires QcutEdges(values, edges, |edges| - 1)
    ensures |out| == |values| && forall i :: 0 <= i < |out| ==> out[i] in labels
  {
    var idx := ScaledCodes(values, edges, |labels|);
    seq(|values|, i requires 0 <= i < |values| => labels[idx[i]])
  }

  /** `_qcut_score(series, q, labels, reverse)`: one score per value, in
      order. With no bins every row gets the last label and no reversal
      happens; otherwise unreversed scores are labels, and reversed ones
      stay within the labels' range. */
  function QcutScore(values: seq<real>, edges: seq<real>, q: int, labels: seq<int>, reverse: bool): (out: seq<int>)
    requires |labels| >= 1
    requires QcutEdges(values, edges, q)
    ensures |out| == |values|
    ensures |edges| <= 1 ==> forall i :: 0 <= i < |out| ==> out[i] == labels[|labels| - 1]
    ensures !reverse ==> forall i :: 0 <= i < |out| ==> out[i] in labels
    ensures forall i :: 0 <= i < |out| ==> SeqMin(labels) <= out[i] <= SeqMax(labels)
  {
    var k := |edges| - 1;
    if k <= 0 then seq(|values|, _ => labels[|labels| - 1])
    else
      var out := Labelled(values, edges, labels);
      if reverse && out != [] then
        var r := ReverseScores(out);
        assert SeqMin(labels) <= SeqMin(out) && SeqMax(out) <= SeqMax(labels);
        r
      else out
  }

  predicate NonDecreasing(s: seq<int>) {
    forall i, j :: 0 <= i <= j < |s| ==> s[i] <= s[j]
  }

  /** With increasing labels, a larger value never scores lower, or, when
      reversed, never scores higher. */
  lemma QcutScoreMonotone(values: seq<real>, edges: seq<real>, q: int, labels: seq<int>, reverse: bool, i: int, j: int)
    requires |labels| >= 1 && NonDecreasing(labels)
    requires QcutEdges(values, edges, q)
    requires 0 <= i < |values| && 0 <= j < |values| && values[i] <= values[j]
    ensures !reverse ==> QcutScore(values, edges, q, labels, reverse)[i] <= QcutScore(values, edges, q, labels, reverse)[j]
    ensures reverse ==> QcutScore(values, edges, q, labels, reverse)[i] >= QcutScore(values, edges, q, labels, reverse)[j]
  {
    if reverse {
      QcutReversedAntitone(values, edges, q, labels, i, j);
    } else {
      QcutUnreversedMonotone(values, edges, q, labels, i, j);
    }
  }

  /** Before any reversal, bins and label positions both keep the order of
      the values, so a larger value never gets a smaller label. */
  lemma LabelledMonotone(values: seq<real>, edges: seq<real>, labels: seq<int>, i: int, j: int)
    requires |edges| >= 2 && |labels| >= 1 && NonDecreasing(labels)
    requires QcutEdges(values, edges, |edges| - 1)
    requires 0 <= i < |values| && 0 <= j < |values| && values[i] <= values[j]
    ensures Labelled(values, edges, labels)[i] <= Labelled(values, edges, labels)[j]
  {
    var k := |edges| - 1;
    BinCodeMonotone(edges, values[i], values[j]);
    ScaledIndexMonotone(BinCode(edges, values[i]), BinCode(edges, values[j]), k, |labels|);
    var idx := ScaledCodes(values, edges, |labels|);
    assert idx[i] <= idx[j];
  }

  lemma QcutUnreversedMonotone(values: seq<real>, edges: seq<real>, q: int, labels: seq<int>, i: int, j: int)
    requires |labels| >= 1 && NonDecreasing(labels)
    requires QcutEdges(values, edges, q)
    requires 0 <= i < |values| && 0 <= j < |values| && values[i] <= values[j]
    ensures QcutScore(values, edges, q, labels, false)[i] <= QcutScore(values, edges, q, labels, false)[j]
  {
    if |edges| >= 2 {
      assert QcutScore(values, edges, q, labels, false) == Labelled(values, edges, labels);
      LabelledMonotone(values, edges, labels, i, j);
    }
  }

  lemma QcutReversedAntitone(values: seq<real>, edges: seq<real>, q: int, labels: seq<int>, i: int, j: int)
    requires |labels| >= 1 && NonDecreasing(labels)
    requires QcutEdges(values, edges, q)
    requires 0 <= i < |values| && 0 <= j < |values| && values[i] <= values[j]
    ensures QcutScore(values, edges, q, labels, true)[i] >= QcutScore(values, edges, q, labels, true)[j]
  {
    if |edges| >= 2 {
      var out := Labelled(values, edges, labels);
      assert QcutScore(values, edges, q, labels, true) == ReverseScores(out);
      LabelledMonotone(values, edges, labels, i, j);
      ReverseAntitone(out, i, j);
    }
  }

  /** With a single bin every code is 0, so every row gets the first label,
      reversed or not. */
  lemma QcutSingleBin(values: seq<real>, edges: seq<real>, q: int, labels: seq<int>, reverse: bool)
    requires |labels| >= 1 && QcutEdges(values, edges, q) && |edges| == 2
    ensures forall i :: 0 <= i < |values| ==> QcutScore(values, edges, q, labels, reverse)[i] == labels[0]
  {
    var out := Labelled(values, edges, labels);
    assert forall i :: 0 <= i < |out| ==> out[i] == labels[0];
    if reverse && out != [] {
      assert SeqMax(out) == labels[0] && SeqMin(out) == labels[0];
    }
  }

  /** Without reversal a value at the first edge gets the first label and,
      with two bins or more, a value at the last edge gets the last label. */
  lemma QcutScoreEnds(values: seq<real>, edges: seq<real>, q: int, labels: seq<int>, i: int)
    requires |labels| >= 1 && QcutEdges(values, edges, q) && |edges| >= 2
    requires 0 <= i < |values|
    ensures values[i] == edges[0] ==> QcutScore(values, edges, q, labels, false)[i] == labels[0]
    ensures |edges| >= 3 && values[i] == edges[|edges| - 1] ==>
      QcutScore(values, edges, q, labels, false)[i] == labels[|labels| - 1]
  {
    BinCodeEnds(edges);
    var k := |edges| - 1;
    assert QcutScore(values, edges, q, labels, false) == Labelled(values, edges, labels);
    var idx := ScaledCodes(values, edges, |labels|);
    assert Labelled(values, edges, labels)[i] == labels[idx[i]];
    assert idx[i] == ScaledIndex(BinCode(edges, values[i]), k, |labels|);
  }

  // ---------------------------------------------------------------------
  // assign_rfm_segments (lines 37-55)
  // ---------------------------------------------------------------------

  /** `q=4` quartiles and the labels `[1, 2, 3, 4]` of lines 41-47. */
  const Quartiles: int := 4
  const RfmLabels: seq<int> := [1, 2, 3, 4]

  /** A feature row with its three scores and their concatenation. */
  datatype SegmentedCustomer = SegmentedCustomer(
    row: CustomerFeatures, rScore: int, fScore: int, mScore: int, rfmScore: string)

  function Recencies(features: seq<CustomerFeatures>): seq<real>
    requires forall i :: 0 <= i < |features| ==> features[i].recencyDays.Some?
  {
    seq(|features|, i requires 0 <= i < |features| => features[i].recencyDays.value as real)
  }

  function Frequencies(features: seq<CustomerFeatures>): seq<real> {
    seq(|features|, i requires 0 <= i < |features| => features[i].frequencyOrders as real)
  }

  function Monetaries(features: seq<CustomerFeatures>): seq<real> {
    seq(|features|, i requires 0 <= i < |features| => features[i].monetaryTotal)
  }

  /** `R_score.astype(str) + F_score.astype(str) + M_score.astype(str)`. */
  function RfmScore(r: int, f: int, m: int): (s: string)
    ensures |s| >= 3
    ensures (forall i :: 0 <= i < |s| ==> Text.IsDigit(s[i])) <==> r >= 0 && f >= 0 && m >= 0
  {
    var a, b, c := Text.IntToString(r), Text.IntToString(f), Text.IntToString(m);
    var s := a + b + c;
    assert s[0] == a[0] && s[|a|] == b[0] && s[|a| + |b|] == c[0];
    s
  }

  /** Reads the three single-digit scores back out of an RFM string. */
  function DecodeRfm(s: string): (int, int, int)
    requires |s| == 3 && Text.IsDigit(s[0]) && Text.IsDigit(s[1]) && Text.IsDigit(s[2])
  {
    (Text.DigitValue(s[0]), Text.DigitValue(s[1]), Text.DigitValue(s[2]))
  }

  lemma SingleDigit(d: int)
    requires 0 <= d <= 9
    ensures Text.IntToString(d) == [Text.DigitChar(d)]
    ensures Text.DigitValue(Text.DigitChar(d)) == d
  {
    assert Text.IsDigit(Text.DigitChar(d));
  }

  /** Single-digit scores make a three-character string that decodes back
      to the same scores. */
  lemma RfmScoreRoundTrip(r: int, f: int, m: int)
    requires 0 <= r <= 9 && 0 <= f <= 9 && 0 <= m <= 9
    ensures var s := RfmScore(r, f, m);
      |s| == 3 && Text.IsDigit(s[0]) && Text.IsDigit(s[1]) && Text.IsDigit(s[2]) && DecodeRfm(s) == (r, f, m)
  {
    SingleDigit(r);
    SingleDigit(f);
    SingleDigit(m);
  }

  /** `df[name] = ...`: a new column is appended, an existing one is
      overwritten in place. */
  function AddColumn(columns: seq<string>, name: string): (r: seq<string>)
    ensures name in r
    ensures name in columns ==> r == columns
    ensures name !in columns ==> r == columns + [name]
  {
    if name in columns then columns else columns + [name]
  }

  /** Every quartile score over the labels 1 to 4 is between 1 and 4. */
  lemma RfmScoresInRange(values: seq<real>, edges: seq<real>, reverse: bool)
    requires QcutEdges(values, edges, Quartiles)
    ensures forall i :: 0 <= i < |values| ==> 1 <= QcutScore(values, edges, Quartiles, RfmLabels, reverse)[i] <= 4
  {
    assert SeqMin(RfmLabels) == 1 && SeqMax(RfmLabels) == 4;
  }

  /** `assign_rfm_segments(features)`: the feature table, unchanged, with
      the R (reversed recency), F and M quartile scores and the RFM string
      added; every score is between 1 and 4, so the RFM string has three
      characters (and decodes back, by RfmScoreRoundTrip). */
  method AssignRfmSegments(features: seq<CustomerFeatures>, columns: seq<string>,
                           recencyEdges: seq<real>, frequencyEdges: seq<real>, monetaryEdges: seq<real>)
    returns (df: seq<SegmentedCustomer>, outColumns: seq<string>)
    requires forall i :: 0 <= i < |features| ==> features[i].recencyDays.Some?
    requires QcutEdges(Recencies(features), recencyEdges, Quartiles)
    requires QcutEdges(Frequencies(features), frequencyEdges, Quartiles)
    requires QcutEdges(Monetaries(features), monetaryEdges, Quartiles)
    ensures outColumns == AddColumn(AddColumn(AddColumn(AddColumn(columns, "R_score"), "F_score"), "M_score"), "RFM_score")
    ensures |df| == |features|
    ensures forall i :: 0 <= i < |df| ==> df[i].row == features[i]
    ensures forall i :: 0 <= i < |df| ==>
      && df[i].rScore == QcutScore(Recencies(features), recencyEdges, Quartiles, RfmLabels, true)[i]
      && df[i].fScore == QcutScore(Frequencies(features), frequencyEdges, Quartiles, RfmLabels, false)[i]
      && df[i].mScore == QcutScore(Monetaries(features), monetaryEdges, Quartiles, RfmLabels, false)[i]
    ensures forall i :: 0 <= i < |df| ==>
      && 1 <= df[i].rScore <= 4 && 1 <= df[i].fScore <= 4 && 1 <= df[i].mScore <= 4
      && df[i].rfmScore == RfmScore(df[i].rScore, df[i].fScore, df[i].mScore)
      && |df[i].rfmScore| == 3
  {
    var rScore := QcutScore(Recencies(features), recencyEdges, Quartiles, RfmLabels, true);
    outColumns := AddColumn(columns, "R_score");
    var fScore := QcutScore(Frequencies(features), frequencyEdges, Quartiles, RfmLabels, false);
    outColumns := AddColumn(outColumns, "F_score");
    var mScore := QcutScore(Monetaries(features), monetaryEdges, Quartiles, RfmLabels, false);
    outColumns := AddColumn(outColumns, "M_score");
    var n := |features|;
    var rfm := seq(n, i requires 0 <= i < n => RfmScore(rScore[i], fScore[i], mScore[i]));
    outColumns := AddColumn(outColumns, "RFM_score");
    df := seq(n, i requires 0 <= i < n => SegmentedCustomer(features[i], rScore[i], fScore[i], mScore[i], rfm[i]));
    RfmScoresInRange(Recencies(features), recencyEdges, true);
    RfmScoresInRange(Frequencies(features), frequencyEdges, false);
    RfmScoresInRange(Monetaries(features), monetaryEdges, false);
    forall i | 0 <= i < n ensures |rfm[i]| == 3 {
      RfmScoreRoundTrip(rScore[i], fScore[i], mScore[i]);
    }
  }
}
