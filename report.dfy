/** The tabular part and the summary of the PDF report built by
    `create_pdf_with_plots`: the scored table's columns are cut into pages of
    at most eight, and each page of columns is written as a header row
    followed by one row per record. */
module Report {
  import opened Seqs
  import opened Schema
  import opened Frames
  import opened Inference

  /** `cols_per_page`. */
  const ColsPerPage: nat := 8

  // ----- column chunks -----

  /** The slices `s[start:start+8]`, `s[start+8:start+16]`, ... for every
      chunk start below `|s|` (`range(start, len(s), cols_per_page)`). */
  function ChunksFrom<T>(s: seq<T>, start: nat): seq<seq<T>>
    decreases |s| - start
  {
    if start >= |s| then []
    else [Slice(s, start, start + ColsPerPage)] + ChunksFrom(s, start + ColsPerPage)
  }

  /** The column chunks of the report table: starts 0, 8, 16, ... */
  function Chunks<T>(s: seq<T>): seq<seq<T>> {
    ChunksFrom(s, 0)
  }

  /** Read left to right, the chunks are exactly the columns from `start`
      on: nothing is lost, repeated or reordered. */
  lemma {:induction false} ChunksFromFlatten<T>(s: seq<T>, start: nat)
    requires start <= |s|
    ensures Flatten(ChunksFrom(s, start)) == s[start..]
    decreases |s| - start
  {
    if start < |s| {
      if start + ColsPerPage <= |s| {
        ChunksFromFlatten(s, start + ColsPerPage);
        assert s[start..] == s[start..start + ColsPerPage] + s[start + ColsPerPage..];
      } else {
        assert ChunksFrom(s, start + ColsPerPage) == [];
      }
    }
  }

  /** Every chunk holds between one and eight columns, and every chunk but
      the last holds exactly eight. */
  lemma {:induction false} ChunksFromSizes<T>(s: seq<T>, start: nat)
    ensures forall c :: 0 <= c < |ChunksFrom(s, start)| ==> 1 <= |ChunksFrom(s, start)[c]| <= ColsPerPage
    ensures forall c :: 0 <= c < |ChunksFrom(s, start)| - 1 ==> |ChunksFrom(s, start)[c]| == ColsPerPage
    decreases |s| - start
  {
    if start < |s| {
      ChunksFromSizes(s, start + ColsPerPage);
      var rest := ChunksFrom(s, start + ColsPerPage);
      if start + ColsPerPage >= |s| {
        assert rest == [];
      }
      forall c | 0 <= c < |ChunksFrom(s, start)|
        ensures 1 <= |ChunksFrom(s, start)[c]| <= ColsPerPage
        ensures c < |ChunksFrom(s, start)| - 1 ==> |ChunksFrom(s, start)[c]| == ColsPerPage
      {
        if c > 0 {
          assert ChunksFrom(s, start)[c] == rest[c - 1];
        }
      }
    }
  }

  /** There are ceil((|s| - start) / 8) chunks. */
  lemma {:induction false} ChunksFromCount<T>(s: seq<T>, start: nat)
    requires start <= |s|
    ensures |ChunksFrom(s, start)| == (|s| - start + ColsPerPage - 1) / ColsPerPage
    decreases |s| - start
  {
    if start < |s| {
      if start + ColsPerPage <= |s| {
        ChunksFromCount(s, start + ColsPerPage);
      } else {
        assert ChunksFrom(s, start + ColsPerPage) == [];
      }
    }
  }

  /** Chunk `c` (counting from 0) is the slice starting at column
      `start + 8 * c`. */
  lemma {:induction false} ChunksFromAt<T>(s: seq<T>, start: nat, c: nat)
    requires c < |ChunksFrom(s, start)|
    ensures start + c * ColsPerPage < |s|
    ensures ChunksFrom(s, start)[c] == Slice(s, start + c * ColsPerPage, start + c * ColsPerPage + ColsPerPage)
    decreases |s| - start
  {
    var next := start + ColsPerPage;
    var rest := ChunksFrom(s, next);
    assert start < |s| && ChunksFrom(s, start) == [Slice(s, start, next)] + rest;
    if c > 0 {
      assert ChunksFrom(s, start)[c] == rest[c - 1];
      ChunksFromAt(s, next, c - 1);
      var from := next + (c - 1) * ColsPerPage;
      assert from == start + c * ColsPerPage by {
        MulSucc(ColsPerPage, c - 1);
      }
    }
  }

  /** Position `k` of chunk `c` is column `c * 8 + k`, and that column
      number determines both. */
  lemma ChunkIndex(j: nat, c: nat, k: nat)
    requires k < ColsPerPage && j == c * ColsPerPage + k
    ensures c == j / ColsPerPage && k == j % ColsPerPage
  {
  }

  /** Column `j` lands in chunk `j / 8` at position `j % 8`. */
  lemma ColumnInChunk<T>(s: seq<T>, j: nat)
    requires j < |s|
    ensures j / ColsPerPage < |Chunks(s)|
    ensures j % ColsPerPage < |Chunks(s)[j / ColsPerPage]|
    ensures Chunks(s)[j / ColsPerPage][j % ColsPerPage] == s[j]
  {
    var q, r := j / ColsPerPage, j % ColsPerPage;
    assert j == q * ColsPerPage + r && r < ColsPerPage;
    assert q < |Chunks(s)| by {
      ChunksFromCount(s, 0);
    }
    ChunksFromAt(s, 0, q);
  }

  /** When the columns are distinct, no chunk but chunk `j / 8` contains
      column `j`. */
  lemma ColumnInOneChunk<T>(s: seq<T>, j: nat, c: nat)
    requires Distinct(s) && j < |s|
    requires c < |Chunks(s)| && s[j] in Chunks(s)[c]
    ensures c == j / ColsPerPage
  {
    ChunksFromAt(s, 0, c);
    var k :| 0 <= k < |Chunks(s)[c]| && Chunks(s)[c][k] == s[j];
    assert Chunks(s)[c][k] == s[c * ColsPerPage + k];
    ChunkIndex(c * ColsPerPage + k, c, k);
  }

  /** The two worked cases: 30 columns give chunks of 8, 8, 8 and 6
      columns; no columns give no chunks. */
  lemma ChunkExamples<T>(s: seq<T>, none: seq<T>)
    requires |s| == 30 && |none| == 0
    ensures Lengths(Chunks(s)) == [8, 8, 8, 6]
    ensures Chunks(none) == []
  {
    assert ChunksFrom(s, 32) == [];
    assert ChunksFrom(s, 24) == [s[24..30]];
    assert ChunksFrom(s, 16) == [s[16..24], s[24..30]];
    assert ChunksFrom(s, 8) == [s[8..16], s[16..24], s[24..30]];
    assert Chunks(s) == [s[0..8], s[8..16], s[16..24], s[24..30]];
  }

  /** The scored table has at least the 24 schema columns and the two result
      columns, so its report table has at least four column chunks and is
      never empty. */
  lemma ScoredTableChunks(f: Frame, classify: seq<real> -> int, proba: seq<real> -> real)
    requires WellFormed(f)
    ensures |Scored(f, classify, proba).columns| >= 26
    ensures |Chunks(Scored(f, classify, proba).columns)| >= 4
  {
    var sc := Scored(f, classify, proba);
    var cols := sc.columns;
    assert |cols| >= 26 by {
      var named := Elems(FeatureCols()) + {"Prediction", "Failure_Probability"};
      ScoredLabels(f, classify, proba);
      ScoredNames();
      LabelCount(sc, named);
    }
    ChunksFromCount(cols, 0);
  }

  // ----- emitted table rows -----

  /** One emitted table row: a header row of column names or a data row of
      cells, each cell `width` wide. */
  datatype Line =
    | HeaderRow(names: seq<string>, width: real)
    | DataRow(cells: seq<real>, width: real)

  /** `col_width = page_width / len(subset_cols)`: the chunk's columns share
      the page width exactly. */
  function ColumnWidth(pageWidth: real, n: nat): (w: real)
    requires n > 0
    ensures w * (n as real) == pageWidth
  {
    pageWidth / (n as real)
  }

  /** The data rows of the chunk starting at column `start`:
      `row[start:start+cols_per_page]` of every record. */
  function DataRows(records: seq<seq<real>>, start: nat, width: real): (r: seq<Line>)
    ensures |r| == |records|
  {
    seq(|records|, i requires 0 <= i < |records| =>
      DataRow(Slice(records[i], start, start + ColsPerPage), width))
  }

  /** The rows emitted for the chunk starting at column `start`: its header,
      then one row per record. */
  function ChunkLines(cols: seq<string>, records: seq<seq<real>>, pageWidth: real, start: nat): (r: seq<Line>)
    requires start < |cols|
    ensures |r| == |records| + 1
  {
    var subset := Slice(cols, start, start + ColsPerPage);
    var width := ColumnWidth(pageWidth, |subset|);
    [HeaderRow(subset, width)] + DataRows(records, start, width)
  }

  /** The blocks of rows emitted for the chunks starting at `start` and
      after, one block per chunk. */
  function Blocks(cols: seq<string>, records: seq<seq<real>>, pageWidth: real, start: nat): seq<seq<Line>>
    decreases |cols| - start
  {
    if start >= |cols| then []
    else [ChunkLines(cols, records, pageWidth, start)] + Blocks(cols, records, pageWidth, start + ColsPerPage)
  }

  /** All rows of the report table, block after block. */
  function TableLines(cols: seq<string>, records: seq<seq<real>>, pageWidth: real): seq<Line> {
    Flatten(Blocks(cols, records, pageWidth, 0))
  }

  /** The cells of one emitted row, one `pdf.cell` per item, in order. */
  method EmitCells<T>(items: seq<T>) returns (cells: seq<T>)
    ensures cells == items
  {
    cells := [];
    for k := 0 to |items|
      invariant cells == items[..k]
    {
      cells := cells + [items[k]];
    }
  }

  /** One pass of the chunk loop: the header row of the chunk starting at
      column `start`, then the row of every record for those columns. */
  method EmitChunk(cols: seq<string>, records: seq<seq<real>>, pageWidth: real, start: nat)
      returns (subsetCols: seq<string>, block: seq<Line>)
    requires start < |cols|
    ensures subsetCols == Slice(cols, start, start + ColsPerPage)
    ensures block == ChunkLines(cols, records, pageWidth, start)
  {
    subsetCols := Slice(cols, start, start + ColsPerPage);
    var colWidth := ColumnWidth(pageWidth, |subsetCols|);
    var header := EmitCells(subsetCols);
    block := [HeaderRow(header, colWidth)];
    for i := 0 to |records|
      invariant block == [HeaderRow(subsetCols, colWidth)] + DataRows(records[..i], start, colWidth)
    {
      var cells := EmitCells(Slice(records[i], start, start + ColsPerPage));
      assert DataRows(records[..i + 1], start, colWidth)
        == DataRows(records[..i], start, colWidth) + [DataRow(cells, colWidth)];
      block := block + [DataRow(cells, colWidth)];
    }
    assert records[..|records|] == records;
  }

  /** The column-chunk loop of `create_pdf_with_plots`: `range(0,
      len(dataframe.columns), cols_per_page)`, each pass emitting one chunk. */
  method BuildTable(f: Frame, pageWidth: real) returns (chunks: seq<seq<string>>, lines: seq<Line>)
    requires WellFormed(f)
    ensures chunks == Chunks(f.columns)
    ensures lines == TableLines(f.columns, Rows(f), pageWidth)
  {
    var cols := f.columns;
    var records := Rows(f);
    chunks, lines := [], [];
    var start := 0;
    while start < |cols|
      invariant chunks + ChunksFrom(cols, start) == Chunks(cols)
      invariant lines + Flatten(Blocks(cols, records, pageWidth, start)) == TableLines(cols, records, pageWidth)
      decreases |cols| - start
    {
      var subsetCols, block := EmitChunk(cols, records, pageWidth, start);
      var next := start + ColsPerPage;
      assert ChunksFrom(cols, start) == [subsetCols] + ChunksFrom(cols, next);
      AppendStep(chunks, [subsetCols], ChunksFrom(cols, next), Chunks(cols));
      ghost var rest := Blocks(cols, records, pageWidth, next);
      assert Flatten(Blocks(cols, records, pageWidth, start)) == block + Flatten(rest);
      AppendStep(lines, block, Flatten(rest), TableLines(cols, records, pageWidth));
      lines := lines + block;
      chunks := chunks + [subsetCols];
      start := next;
    }
  }

  /** Every chunk from `start` on has a block, of one header row and one
      row per record. */
  lemma {:induction false} BlocksShape(cols: seq<string>, records: seq<seq<real>>, pageWidth: real, start: nat)
    ensures |Blocks(cols, records, pageWidth, start)| == |ChunksFrom(cols, start)|
    ensures forall c :: 0 <= c < |Blocks(cols, records, pageWidth, start)| ==>
      |Blocks(cols, records, pageWidth, start)[c]| == |records| + 1
    decreases |cols| - start
  {
    if start < |cols| {
      BlocksShape(cols, records, pageWidth, start + ColsPerPage);
      var bs := Blocks(cols, records, pageWidth, start);
      forall c | 0 <= c < |bs| ensures |bs[c]| == |records| + 1 {
        if c > 0 {
          assert bs[c] == Blocks(cols, records, pageWidth, start + ColsPerPage)[c - 1];
        }
      }
    }
  }

  /** Block `c` (counting from 0) is the block of the chunk starting at column
      `start + 8 * c`. */
  lemma {:induction false} BlocksAt(cols: seq<string>, records: seq<seq<real>>, pageWidth: real, start: nat, c: nat)
    requires c < |Blocks(cols, records, pageWidth, start)|
    ensures start + c * ColsPerPage < |cols|
    ensures Blocks(cols, records, pageWidth, start)[c] == ChunkLines(cols, records, pageWidth, start + c * ColsPerPage)
    decreases |cols| - start
  {
    var bs := Blocks(cols, records, pageWidth, start);
    var next := start + ColsPerPage;
    var rest := Blocks(cols, records, pageWidth, next);
    assert start < |cols| && bs == [ChunkLines(cols, records, pageWidth, start)] + rest;
    if c > 0 {
      assert bs[c] == rest[c - 1];
      BlocksAt(cols, records, pageWidth, next, c - 1);
      var from := next + (c - 1) * ColsPerPage;
      assert from == start + c * ColsPerPage by {
        MulSucc(ColsPerPage, c - 1);
      }
    }
  }

  /** The table emits one header row and one row per record for every
      chunk: `(rows + 1) * chunks` rows in all. */
  lemma TableLinesCount(cols: seq<string>, records: seq<seq<real>>, pageWidth: real)
    ensures |TableLines(cols, records, pageWidth)| == (|records| + 1) * |Chunks(cols)|
  {
    BlocksShape(cols, records, pageWidth, 0);
    FlattenUniform(Blocks(cols, records, pageWidth, 0), |records| + 1);
  }

  /** The block of the chunk starting at column `start`: its header names
      the chunk's columns, row `i` (from 1) holds record `i - 1`'s cells for
      those columns, as many as the header has names, and every row is
      `ColumnWidth` of the chunk's size wide. */
  lemma ChunkLinesAt(cols: seq<string>, records: seq<seq<real>>, pageWidth: real, start: nat, i: nat)
    requires start < |cols| && i <= |records|
    requires forall r :: 0 <= r < |records| ==> |records[r]| == |cols|
    ensures var block := ChunkLines(cols, records, pageWidth, start);
      var subset := Slice(cols, start, start + ColsPerPage);
      && 1 <= |subset| <= ColsPerPage
      && block[i].width == ColumnWidth(pageWidth, |subset|)
      && (i == 0 ==> block[i] == HeaderRow(subset, block[i].width))
      && (i > 0 ==>
            && block[i] == DataRow(Slice(records[i - 1], start, start + ColsPerPage), block[i].width)
            && |block[i].cells| == |subset|)
  {
    var subset := Slice(cols, start, start + ColsPerPage);
    assert 1 <= |subset| <= ColsPerPage;
    var width := ColumnWidth(pageWidth, |subset|);
    var rows := DataRows(records, start, width);
    var block := ChunkLines(cols, records, pageWidth, start);
    assert block == [HeaderRow(subset, width)] + rows;
    if i > 0 {
      assert block[i] == rows[i - 1] == DataRow(Slice(records[i - 1], start, start + ColsPerPage), width);
      assert |records[i - 1]| == |cols|;
    }
  }

  /** Chunk `c` is the column slice `cols[8 * c : 8 * c + 8]`, and row
      `c * (|records| + 1) + i` of the report table is row `i` of that
      chunk's block (`ChunkLinesAt` says what that row holds). */
  lemma TableLinesAt(cols: seq<string>, records: seq<seq<real>>, pageWidth: real, c: nat, i: nat)
    requires c < |Chunks(cols)| && i <= |records|
    ensures c * ColsPerPage < |cols|
    ensures Chunks(cols)[c] == Slice(cols, c * ColsPerPage, c * ColsPerPage + ColsPerPage)
    ensures c * (|records| + 1) + i < |TableLines(cols, records, pageWidth)|
    ensures TableLines(cols, records, pageWidth)[c * (|records| + 1) + i]
         == ChunkLines(cols, records, pageWidth, c * ColsPerPage)[i]
  {
    var blocks := Blocks(cols, records, pageWidth, 0);
    ChunksFromAt(cols, 0, c);
    BlocksShape(cols, records, pageWidth, 0);
    assert blocks[c] == ChunkLines(cols, records, pageWidth, c * ColsPerPage) by {
      BlocksAt(cols, records, pageWidth, 0, c);
    }
    FlattenAt(blocks, |records| + 1, c, i);
  }

  // ----- the summary block -----

  /** The four figures the summary block prints; the mean is absent when the
      table has no rows (pandas gives NaN). */
  datatype ReportSummary = ReportSummary(total: nat, atRisk: nat, healthy: nat, meanProbability: Option<real>)

  /** `Series.mean()`. */
  function Mean(s: seq<real>): Option<real> {
    if |s| == 0 then None else Some(Sum(s) / (|s| as real))
  }

  /** The summary block: `len(dataframe)`, the rows whose `Prediction` is 1,
      the rows whose `Prediction` is 0, and the mean `Failure_Probability`. */
  function Summary(f: Frame): (r: ReportSummary)
    requires WellFormed(f) && "Prediction" in f.data && "Failure_Probability" in f.data
    ensures r.total == f.rows
    ensures r.atRisk + r.healthy <= r.total
  {
    var pred := f.data["Prediction"];
    CountTwoValues(pred, 1.0, 0.0);
    ReportSummary(f.rows, Count(pred, 1.0), Count(pred, 0.0), Mean(f.data["Failure_Probability"]))
  }

  /** The mean of probabilities is a probability. */
  lemma MeanInUnit(s: seq<real>)
    requires |s| > 0
    requires forall i :: 0 <= i < |s| ==> 0.0 <= s[i] <= 1.0
    ensures Mean(s).Some? && 0.0 <= Mean(s).value <= 1.0
  {
    SumBounds(s);
    var n := |s| as real;
    assert Sum(s) / n <= 1.0 by {
      assert Sum(s) <= n;
    }
  }

  /** The summary of a table whose `Prediction` column holds the labels
      `preds` and whose `Failure_Probability` column holds `probs` counts
      the labels themselves and averages `probs`. */
  lemma SummaryOfLabels(f: Frame, preds: seq<int>, probs: seq<real>)
    requires WellFormed(f) && "Prediction" in f.data && "Failure_Probability" in f.data
    requires f.data["Prediction"] == Apply(preds, LabelCell) && f.data["Failure_Probability"] == probs
    ensures Summary(f) == ReportSummary(f.rows, Count(preds, 1), Count(preds, 0), Mean(probs))
  {
    assert LabelCell(1) == 1.0 && LabelCell(0) == 0.0;
    CountApply(preds, LabelCell, 1);
    CountApply(preds, LabelCell, 0);
  }

  /** The summary of the scored table reports the same at-risk and healthy
      counts as the dashboard; when the classifier answers only 0 or 1 they
      add up to the record count, and when its probabilities lie in [0, 1]
      and there is at least one record the mean lies in [0, 1]. */
  lemma ScoredSummary(f: Frame, classify: seq<real> -> int, proba: seq<real> -> real)
    requires WellFormed(f)
    ensures var r := Summary(Scored(f, classify, proba));
      var preds := Predictions(f, classify);
      && r.total == f.rows
      && r.atRisk == Count(preds, 1)
      && r.healthy == Count(preds, 0)
      && r.meanProbability == Mean(Probabilities(f, proba))
    ensures (forall i :: 0 <= i < f.rows ==> Predictions(f, classify)[i] == 0 || Predictions(f, classify)[i] == 1) ==>
      Summary(Scored(f, classify, proba)).atRisk + Summary(Scored(f, classify, proba)).healthy == f.rows
    ensures f.rows > 0 && (forall i :: 0 <= i < f.rows ==> 0.0 <= Probabilities(f, proba)[i] <= 1.0) ==>
      Summary(Scored(f, classify, proba)).meanProbability.Some?
      && 0.0 <= Summary(Scored(f, classify, proba)).meanProbability.value <= 1.0
  {
    var preds := Predictions(f, classify);
    var probs := Probabilities(f, proba);
    var sc := Scored(f, classify, proba);
    assert Summary(sc) == ReportSummary(f.rows, Count(preds, 1), Count(preds, 0), Mean(probs)) by {
      ScoredShape(f, classify, proba);
      SummaryOfLabels(sc, preds, probs);
    }
    if forall i :: 0 <= i < f.rows ==> preds[i] == 0 || preds[i] == 1 {
      ScoredCountsSum(f, classify);
    }
    if f.rows > 0 && forall i :: 0 <= i < f.rows ==> 0.0 <= probs[i] <= 1.0 {
      MeanInUnit(probs);
    }
  }

  /** Three records with probabilities 0.10, 0.60, 0.95 and predictions
      0, 1, 1 are summarised as 3 engines, 2 at risk, 1 healthy, mean 0.55. */
  lemma SummaryExample(f: Frame)
    requires WellFormed(f) && f.rows == 3
    requires "Prediction" in f.data && f.data["Prediction"] == [0.0, 1.0, 1.0]
    requires "Failure_Probability" in f.data && f.data["Failure_Probability"] == [0.10, 0.60, 0.95]
    ensures Summary(f) == ReportSummary(3, 2, 1, Some(0.55))
  {
    var p := f.data["Prediction"];
    assert p[..2] == [0.0, 1.0] && p[..2][..1] == [0.0] && p[..2][..1][..0] == [];
    assert Count(p[..2][..1], 1.0) == 0 && Count(p[..2][..1], 0.0) == 1;
    assert Count(p, 1.0) == 2 && Count(p, 0.0) == 1;
    var q := f.data["Failure_Probability"];
    assert q[..2] == [0.10, 0.60] && q[..2][..1] == [0.10] && q[..2][..1][..0] == [];
    assert Sum(q[..2][..1]) == 0.10;
    assert Sum(q) == 1.65;
  }
}
