/** Feature alignment and scoring: `make_predictions` and the bookkeeping
    that stores its output in the table and counts it.

    The fitted scaler and classifier are opaque artifacts. They are given as
    two functions of one row of the projected feature matrix: `classify`
    (the scaler followed by `predict`) and `proba` (the scaler followed by
    column 1 of `predict_proba`). */
module Inference {
  import opened Seqs
  import opened Schema
  import opened Frames

  /** The `for col in feature_cols` loop: each schema name that is not a
      column yet is added, in place, as an all-zero column. */
  method AlignFeatures(t: Table, schema: seq<string>)
    requires t.Valid()
    modifies t
    ensures t.Valid()
    ensures t.View() == Align(old(t.View()), schema)
  {
    ghost var f0 := t.View();
    var i := 0;
    while i < |schema|
      invariant 0 <= i <= |schema|
      invariant t.Valid()
      invariant Align(t.View(), schema[i..]) == Align(f0, schema)
    {
      var col := schema[i];
      assert schema[i..][0] == col && schema[i..][1..] == schema[i + 1..];
      if col !in t.columns {
        t.SetColumn(col, Zeros(t.rows));
      }
      i := i + 1;
    }
    assert schema[i..] == [];
  }

  /** `X = df[feature_cols]` after alignment, as a list of rows. Every row has
      the 24 schema cells in schema order; missing schema columns read as
      zero and columns outside the schema are ignored. */
  function FeatureMatrix(f: Frame): (x: seq<seq<real>>)
    requires WellFormed(f)
    ensures |x| == f.rows
    ensures forall i :: 0 <= i < |x| ==> |x[i]| == |FeatureCols()| == 24
    ensures forall i, j :: 0 <= i < |x| && 0 <= j < |FeatureCols()| ==>
      x[i][j] == CellOrZero(f, FeatureCols()[j], i)
  {
    FeatureColsDistinct();
    AlignedRows(f, FeatureCols())
  }

  /** `model.predict(scaler.transform(X))`: one label per row. */
  function Predictions(f: Frame, classify: seq<real> -> int): (p: seq<int>)
    requires WellFormed(f)
    ensures |p| == f.rows
    ensures forall i :: 0 <= i < f.rows ==> p[i] == classify(FeatureMatrix(f)[i])
  {
    Apply(FeatureMatrix(f), classify)
  }

  /** `model.predict_proba(scaler.transform(X))[:, 1]`: one probability per row. */
  function Probabilities(f: Frame, proba: seq<real> -> real): (q: seq<real>)
    requires WellFormed(f)
    ensures |q| == f.rows
    ensures forall i :: 0 <= i < f.rows ==> q[i] == proba(FeatureMatrix(f)[i])
  {
    Apply(FeatureMatrix(f), proba)
  }

  /** `make_predictions(df)`: aligns `df` in place, then scores its feature
      matrix. */
  method MakePredictions(t: Table, classify: seq<real> -> int, proba: seq<real> -> real)
      returns (preds: seq<int>, probs: seq<real>)
    requires t.Valid()
    modifies t
    ensures t.Valid()
    ensures t.View() == Align(old(t.View()), FeatureCols())
    ensures preds == Predictions(old(t.View()), classify)
    ensures probs == Probabilities(old(t.View()), proba)
  {
    ghost var f0 := t.View();
    AlignFeatures(t, FeatureCols());
    FeatureColsDistinct();
    ProjectAligned(f0, FeatureCols());
    var x := Project(t.View(), FeatureCols());
    var matrix := Rows(x.value);
    preds := Apply(matrix, classify);
    probs := Apply(matrix, proba);
  }

  /** A label stored in the table's numeric `Prediction` column. */
  function LabelCell(v: int): real {
    v as real
  }

  /** The table after scoring: aligned, then `Prediction` and
      `Failure_Probability` assigned. */
  function Scored(f: Frame, classify: seq<real> -> int, proba: seq<real> -> real): (sc: Frame)
    requires WellFormed(f)
    ensures WellFormed(sc) && sc.rows == f.rows
    ensures "Prediction" in sc.data && "Failure_Probability" in sc.data
  {
    AlignWellFormed(f, FeatureCols());
    var a := Align(f, FeatureCols());
    var withPred := WithColumn(a, "Prediction", Apply(Predictions(f, classify), LabelCell));
    WithColumn(withPred, "Failure_Probability", Probabilities(f, proba))
  }

  /** Scoring the uploaded or entered table: `make_predictions`, then the two
      result columns assigned in place. */
  method Score(t: Table, classify: seq<real> -> int, proba: seq<real> -> real)
      returns (preds: seq<int>, probs: seq<real>)
    requires t.Valid()
    modifies t
    ensures t.Valid()
    ensures t.View() == Scored(old(t.View()), classify, proba)
    ensures preds == Predictions(old(t.View()), classify)
    ensures probs == Probabilities(old(t.View()), proba)
  {
    ghost var f0 := t.View();
    preds, probs := MakePredictions(t, classify, proba);
    AlignWellFormed(f0, FeatureCols());
    t.SetColumn("Prediction", Apply(preds, LabelCell));
    t.SetColumn("Failure_Probability", probs);
  }

  /** The scored table is well formed with the input's row count; it holds
      every input column unchanged, every schema column, and the two result
      columns with one label and one probability per row. */
  lemma ScoredShape(f: Frame, classify: seq<real> -> int, proba: seq<real> -> real)
    requires WellFormed(f)
    ensures var sc := Scored(f, classify, proba);
      && WellFormed(sc)
      && sc.rows == f.rows
      && (forall c :: c in FeatureCols() ==> c in sc.data)
      && (forall c :: c in f.data && c != "Prediction" && c != "Failure_Probability" ==>
            c in sc.data && sc.data[c] == f.data[c])
      && "Prediction" in sc.data && "Failure_Probability" in sc.data
      && sc.data["Prediction"] == Apply(Predictions(f, classify), LabelCell)
      && sc.data["Failure_Probability"] == Probabilities(f, proba)
  {
    AlignWellFormed(f, FeatureCols());
    AlignAddsOnly(f, FeatureCols());
  }

  /** When the input had neither result column, the scored table's columns
      are the input's, then the missing schema names in schema order, then
      `Prediction` and `Failure_Probability`. */
  lemma ScoredColumns(f: Frame, classify: seq<real> -> int, proba: seq<real> -> real)
    requires WellFormed(f)
    requires "Prediction" !in f.columns && "Failure_Probability" !in f.columns
    ensures Scored(f, classify, proba).columns
      == f.columns + Missing(FeatureCols(), f.columns) + ["Prediction", "Failure_Probability"]
  {
    var fc := FeatureCols();
    var a := Align(f, fc);
    assert a.columns == f.columns + Missing(fc, f.columns) by {
      FeatureColsDistinct();
      AlignColumns(f, fc);
    }
    assert "Prediction" !in a.columns && "Failure_Probability" !in a.columns by {
      ScoreColumnsNotFeatures();
      MissingMembers(fc, f.columns);
    }
    assert a.rows == f.rows by {
      AlignWellFormed(f, fc);
    }
    var preds := Apply(Predictions(f, classify), LabelCell);
    var probs := Probabilities(f, proba);
    assert Scored(f, classify, proba) == WithColumn(WithColumn(a, "Prediction", preds), "Failure_Probability", probs);
    AppendTwoColumns(a, "Prediction", preds, "Failure_Probability", probs);
  }

  /** The schema names and the two result names are 26 different labels. */
  lemma ScoredNames()
    ensures |Elems(FeatureCols()) + {"Prediction", "Failure_Probability"}| == 26
  {
    var fc := FeatureCols();
    FeatureColsDistinct();
    DistinctCard(fc);
    ScoreColumnsNotFeatures();
    assert Elems(fc) * {"Prediction", "Failure_Probability"} == {};
  }

  /** The scored table holds every schema name and both result names. */
  lemma ScoredLabels(f: Frame, classify: seq<real> -> int, proba: seq<real> -> real)
    requires WellFormed(f)
    ensures Elems(FeatureCols()) + {"Prediction", "Failure_Probability"} <= Scored(f, classify, proba).data.Keys
  {
    ScoredShape(f, classify, proba);
  }

  /** A cell of the feature matrix of a table holding the first `m` schema
      columns: the table's own cell for those, zero for the others. */
  lemma SchemaPrefixCell(f: Frame, m: nat, i: nat, j: nat)
    requires WellFormed(f) && m <= 24 && f.columns == FeatureCols()[..m] && i < f.rows && j < 24
    ensures FeatureMatrix(f)[i][j] == if j < m then Rows(f)[i][j] else 0.0
  {
    var fc := FeatureCols();
    assert FeatureMatrix(f)[i][j] == CellOrZero(f, fc[j], i);
    assert CellOrZero(f, fc[j], i) == if j < m then Rows(f)[i][j] else 0.0 by {
      FeatureColsDistinct();
      PrefixCellOrZero(f, fc, m, i, j);
    }
  }

  /** A record from the manual-entry form, which asks for the operational
      settings and `sensor_1` .. `sensor_5` only, is still scored: its feature
      row starts with its eight entered values, in order, and holds zero for
      `sensor_6` .. `sensor_21`. */
  lemma ManualInputScored(f: Frame)
    requires WellFormed(f) && f.columns == ManualFields() && f.rows == 1
    ensures |FeatureMatrix(f)| == 1
    ensures forall j :: 0 <= j < 8 ==> FeatureMatrix(f)[0][j] == Rows(f)[0][j]
    ensures forall j :: 8 <= j < 24 ==> FeatureMatrix(f)[0][j] == 0.0
  {
    ManualFieldsArePrefix();
    forall j | 0 <= j < 24
      ensures FeatureMatrix(f)[0][j] == if j < 8 then Rows(f)[0][j] else 0.0
    {
      SchemaPrefixCell(f, 8, 0, j);
    }
  }

  // ----- counts and the at-risk filter -----

  /** The indices of the cells equal to `v`, in increasing order
      (the index of `df[df[col] == v]`). */
  function MatchingRows(col: seq<real>, v: real): (idx: seq<nat>)
    ensures |idx| == Count(col, v)
    ensures forall k :: 0 <= k < |idx| ==> idx[k] < |col| && col[idx[k]] == v
    ensures forall k, l :: 0 <= k < l < |idx| ==> idx[k] < idx[l]
  {
    if col == [] then []
    else
      var n := |col| - 1;
      MatchingRows(col[..n], v) + (if col[n] == v then [n] else [])
  }

  /** Every row whose cell is `v` is selected, and no other. */
  lemma {:induction false} MatchingRowsComplete(col: seq<real>, v: real, i: nat)
    requires i < |col|
    ensures i in MatchingRows(col, v) <==> col[i] == v
  {
    var n := |col| - 1;
    if i < n {
      MatchingRowsComplete(col[..n], v, i);
      assert col[..n][i] == col[i];
      assert n !in MatchingRows(col[..n], v);
    }
  }

  /** `df[df["Prediction"] == 1]`: the at-risk rows with all their columns. */
  function AtRisk(f: Frame): (g: Frame)
    requires WellFormed(f) && "Prediction" in f.data
    ensures g.columns == f.columns && g.rows == Count(f.data["Prediction"], 1.0)
    ensures WellFormed(g)
    ensures forall i :: 0 <= i < g.rows ==> g.data["Prediction"][i] == 1.0
  {
    SelectRows(f, MatchingRows(f.data["Prediction"], 1.0))
  }

  /** In a table whose `Prediction` column holds the labels `preds`, the
      at-risk filter selects exactly the rows labelled 1. */
  lemma AtRiskOfLabels(g: Frame, preds: seq<int>)
    requires WellFormed(g) && "Prediction" in g.data
    requires g.data["Prediction"] == Apply(preds, LabelCell)
    ensures AtRisk(g).rows == Count(preds, 1)
    ensures forall i :: 0 <= i < |preds| ==>
      (i in MatchingRows(g.data["Prediction"], 1.0) <==> preds[i] == 1)
  {
    var col := g.data["Prediction"];
    assert LabelCell(1) == 1.0;
    CountApply(preds, LabelCell, 1);
    forall i | 0 <= i < |preds|
      ensures i in MatchingRows(col, 1.0) <==> preds[i] == 1
    {
      MatchingRowsComplete(col, 1.0, i);
    }
  }

  /** The at-risk filter of the scored table selects exactly the rows the
      classifier labelled 1, and as many rows as the dashboard's at-risk
      count `(preds == 1).sum()`. */
  lemma ScoredAtRisk(f: Frame, classify: seq<real> -> int, proba: seq<real> -> real)
    requires WellFormed(f)
    ensures "Prediction" in Scored(f, classify, proba).data
    ensures AtRisk(Scored(f, classify, proba)).rows == Count(Predictions(f, classify), 1)
    ensures forall i :: 0 <= i < f.rows ==>
      (i in MatchingRows(Scored(f, classify, proba).data["Prediction"], 1.0)
       <==> Predictions(f, classify)[i] == 1)
  {
    var sc := Scored(f, classify, proba);
    var preds := Predictions(f, classify);
    ScoredShape(f, classify, proba);
    AtRiskOfLabels(sc, preds);
  }

  /** When the classifier only answers 0 or 1, the dashboard's at-risk and
      healthy counts add up to the number of records. */
  lemma ScoredCountsSum(f: Frame, classify: seq<real> -> int)
    requires WellFormed(f)
    requires forall i :: 0 <= i < f.rows ==> Predictions(f, classify)[i] == 0 || Predictions(f, classify)[i] == 1
    ensures Count(Predictions(f, classify), 1) + Count(Predictions(f, classify), 0) == f.rows
  {
    CountTwoValues(Predictions(f, classify), 1, 0);
  }
}
