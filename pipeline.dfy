/** How the stages meet (main.py and the dashboard): the table that
    feature building and RFM scoring hand over carries exactly one churn
    flag column, and the dashboard reads the window back out of its name. */
module Pipeline {
  import opened Common
  import Text
  import Features
  import Segmentation
  import Dashboard

  /** The score columns `assign_rfm_segments` adds, in order. */
  const ScoreColumns: seq<string> := ["R_score", "F_score", "M_score", "RFM_score"]

  /** The columns of the segmented table for a churn window of `w` days:
      the feature columns followed by the four score columns. */
  function SegmentedColumns(w: int): (cols: seq<string>)
    ensures cols == Features.FeatureColumns(w) + ScoreColumns
  {
    var base := Features.FeatureColumns(w);
    ScoreColumnsAreNew(w);
    var c1 := Segmentation.AddColumn(base, "R_score");
    assert c1 == base + ["R_score"];
    assert "F_score" !in c1 by { assert "F_score"[0] != "R_score"[0]; }
    var c2 := Segmentation.AddColumn(c1, "F_score");
    assert c2 == c1 + ["F_score"];
    assert "M_score" !in c2 by { assert "M_score"[0] != "R_score"[0] && "M_score"[0] != "F_score"[0]; }
    var c3 := Segmentation.AddColumn(c2, "M_score");
    assert c3 == c2 + ["M_score"];
    assert "RFM_score" !in c3 by {
      assert "RFM_score"[1] != "R_score"[1];
      assert "RFM_score"[0] != "F_score"[0] && "RFM_score"[0] != "M_score"[0];
    }
    var c4 := Segmentation.AddColumn(c3, "RFM_score");
    assert c4 == c3 + ["RFM_score"];
    c4
  }

  /** None of the score columns is already a feature column. */
  lemma ScoreColumnsAreNew(w: int)
    ensures "R_score" !in Features.FeatureColumns(w)
    ensures "F_score" !in Features.FeatureColumns(w)
    ensures "M_score" !in Features.FeatureColumns(w)
    ensures "RFM_score" !in Features.FeatureColumns(w)
  {
    var cols := Features.FeatureColumns(w);
    assert cols[8][0] == 'c';
  }

  /** On the columns of the table main.py writes, the dashboard's churn
      window lines would pick the flag column `"churn_" + str(w) + "d"` and
      show the window `str(w) + "d"`. (The page never gets there on that
      table: see SegmentedTableLacksSegmentName.) */
  lemma DashboardFindsChurnWindow(w: int)
    ensures Dashboard.ChurnColumn(SegmentedColumns(w)) == Some(Features.ChurnColumnName(w))
    ensures Dashboard.ChurnWindowLabel(Features.ChurnColumnName(w)) == Text.IntToString(w) + "d"
  {
    var cols := SegmentedColumns(w);
    var fc := Features.FeatureColumns(w);
    assert cols[..9] == fc;
    assert forall i :: 0 <= i < 8 ==> cols[i] == fc[i];
    assert cols[8] == fc[8];
    Dashboard.ChurnColumnFirst(cols, 8);
    Dashboard.ChurnWindowLabelOfName(w);
  }

  /** The segments table main.py writes has no `segment_name` column, so
      the dashboard's schema check reports exactly that column missing and
      the page stops before any panel is drawn. */
  lemma SegmentedTableLacksSegmentName(w: int)
    ensures Dashboard.SegmentsMissing(SegmentedColumns(w)) == ["segment_name"]
  {
    var cols := SegmentedColumns(w);
    SegmentedColumnsHave(w);
    assert Dashboard.IfAbsent(cols, "customer_unique_id") == [];
    assert Dashboard.IfAbsent(cols, "monetary_total") == [];
    assert Dashboard.IfAbsent(cols, "segment_name") == ["segment_name"];
  }

  /** The segmented table has the id and monetary columns but no
      `segment_name`. */
  lemma SegmentedColumnsHave(w: int)
    ensures "customer_unique_id" in SegmentedColumns(w) && "monetary_total" in SegmentedColumns(w)
    ensures "segment_name" !in SegmentedColumns(w)
  {
    var fc := Features.FeatureColumns(w);
    Features.FeatureColumnsNamed(w);
    ScoresLackSegmentName();
    NotInConcat(fc, ScoreColumns, "segment_name");
    assert fc[0] in fc && fc[3] in fc;
  }

  lemma ScoresLackSegmentName()
    ensures "segment_name" !in ScoreColumns
  {
    assert forall i :: 0 <= i < |ScoreColumns| ==> |ScoreColumns[i]| < |"segment_name"|;
  }

  lemma NotInConcat(a: seq<string>, b: seq<string>, x: string)
    requires x !in a && x !in b
    ensures x !in a + b
  {
  }
}
