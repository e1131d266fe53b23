/** The schema check `require_columns` (src/utils/validation.py). */
module Validation {
  import opened Common
  import Text

  /** `[c for c in required if c not in df.columns]`. */
  function Missing(columns: seq<string>, required: seq<string>): (missing: seq<string>)
    ensures forall x :: Count(missing, x) == if x in columns then 0 else Count(required, x)
    ensures IsSubsequence(missing, required)
  {
    Filter(required, c => c !in columns)
  }

  /** What `require_columns` does: return normally, or raise `ValueError`
      carrying the missing names and its message. */
  datatype SchemaCheck = Passed | SchemaError(missing: seq<string>, message: string)

  /** The text of the `ValueError`. */
  function ErrorMessage(name: string, missing: seq<string>, columns: seq<string>): (m: string)
    ensures Text.StartsWith(m, "[schema] ")
    ensures Text.Contains(m, name)
    ensures Text.Contains(m, Text.ListRepr(missing))
    ensures Text.Contains(m, Text.ListRepr(columns))
  {
    var p1 := "[schema] " + name;
    var p2 := p1 + " missing columns: ";
    var p3 := p2 + Text.ListRepr(missing);
    var p4 := p3 + ". Available columns: ";
    var m := p4 + Text.ListRepr(columns);
    assert m[..9] == p1[..9] == "[schema] ";
    Text.ContainsSelf(name);
    Text.ContainsRight("[schema] ", name, name);
    Text.ContainsLeft(p1, " missing columns: ", name);
    Text.ContainsSelf(Text.ListRepr(missing));
    Text.ContainsRight(p2, Text.ListRepr(missing), Text.ListRepr(missing));
    Text.ContainsLeft(p2, Text.ListRepr(missing), name);
    Text.ContainsLeft(p3, ". Available columns: ", name);
    Text.ContainsLeft(p3, ". Available columns: ", Text.ListRepr(missing));
    Text.ContainsLeft(p4, Text.ListRepr(columns), name);
    Text.ContainsLeft(p4, Text.ListRepr(columns), Text.ListRepr(missing));
    Text.ContainsSelf(Text.ListRepr(columns));
    Text.ContainsRight(p4, Text.ListRepr(columns), Text.ListRepr(columns));
    m
  }

  /** Nothing is missing exactly when every required name is a column. */
  lemma MissingEmpty(columns: seq<string>, required: seq<string>)
    ensures Missing(columns, required) == [] <==> forall c :: c in required ==> c in columns
  {
    var missing := Missing(columns, required);
    if missing != [] {
      assert Count(missing, missing[0]) > 0;
    }
  }

  /** `require_columns(df, required, name)` for a table with column names `columns`. */
  function RequireColumns(columns: seq<string>, required: seq<string>, name: string): (r: SchemaCheck)
    ensures r.Passed? <==> forall c :: c in required ==> c in columns
    ensures r.SchemaError? ==> r.missing == Missing(columns, required) && r.missing != []
    ensures r.SchemaError? ==> Text.StartsWith(r.message, "[schema] ")
    ensures r.SchemaError? ==> Text.Contains(r.message, name)
    ensures r.SchemaError? ==> Text.Contains(r.message, Text.ListRepr(r.missing))
    ensures r.SchemaError? ==> Text.Contains(r.message, Text.ListRepr(columns))
  {
    MissingEmpty(columns, required);
    var missing := Missing(columns, required);
    if missing == [] then Passed else SchemaError(missing, ErrorMessage(name, missing, columns))
  }

  /** A reviews table that lacks `review_score` fails, naming exactly that column. */
  lemma MissingReviewScore(columns: seq<string>)
    requires "order_id" in columns && "review_score" !in columns
    ensures RequireColumns(columns, ["order_id", "review_score"], "reviews").SchemaError?
    ensures RequireColumns(columns, ["order_id", "review_score"], "reviews").missing == ["review_score"]
  {
    var m := Missing(columns, ["order_id", "review_score"]);
    assert ["order_id", "review_score"][1..] == ["review_score"];
    assert ["review_score"][1..] == [];
  }

  /** Nothing required, nothing missing. */
  lemma EmptyRequiredPasses(columns: seq<string>, name: string)
    ensures RequireColumns(columns, [], name) == Passed
  {
  }
}
