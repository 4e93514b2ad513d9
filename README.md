# Predictive-maintenance dashboard: feature alignment, scoring and report layout

This project models the computational core of `app.py`, a Streamlit dashboard that scores turbofan-engine sensor records with a pre-trained classifier and writes a PDF report. It then proves properties of that model in Dafny. The model covers three parts of the script:

- **The feature schema and its alignment** (`make_predictions`). `feature_cols` lists the three operational settings and then `sensor_1` .. `sensor_21`. Every schema name missing from the uploaded or typed-in table is added to it in place as an all-zero column. The classifier is then fed the projection of the table onto the schema, in schema order.
- **Scoring bookkeeping**. The labels and probabilities are stored as the `Prediction` and `Failure_Probability` columns. The dashboard counts the labels equal to 1 and equal to 0, and filters the at-risk rows with `df[df["Prediction"] == 1]`.
- **The report's table and summary** (`create_pdf_with_plots`). The scored table's columns are cut into chunks of at most eight (`cols_per_page`). Each chunk is written as a header row and then one row per record, with every cell `page_width / len(subset_cols)` wide. The summary block shows the record count, the two label counts and the mean failure probability.

Modules:

- `Seqs` holds generic sequence helpers: Python slicing, counting, flattening and cardinality.
- `Schema` holds `feature_cols` and the manual-entry fields.
- `Frames` holds the table as a value (`Frame`) and as an object mutated in place (`Table`). It also holds column assignment, the alignment fold, projection, `itertuples` and row selection.
- `Inference` holds the alignment loop, `make_predictions`, the scored table, the counts and the at-risk filter.
- `Report` holds the column chunks, the emitted table rows (the chunk loop as a method), and the summary block.

Cells are numbers (`real`). The table is a list of labels plus a map from label to column; every column has one cell per row.

The scaler and the classifier are fitted artifacts loaded from disk, so they appear as two parameters. Each is a function of one feature row:

- `classify` is the scaler followed by `predict`.
- `proba` is the scaler followed by column 1 of `predict_proba`.

The classifier is assumed to answer only 0 or 1, and the probabilities to lie in [0, 1]. These appear as hypotheses of the lemmas that need them.

## Model

| member | source | states |
|---|---|---|
| Schema.FeatureCols | app.py:19 | the schema has 3 + 21 = 24 names |
| Schema.FeatureColsShape | app.py:19 | the schema is the three `operational_setting_k` names followed by `sensor_1` .. `sensor_21`, name `k` (from 3) being `sensor_` and the decimal form of `k - 2` |
| Schema.NatToString | app.py:19 | Python's `str(i)` for a natural: at least one character, all decimal digits, and at least two for numbers from 10 on |
| Schema.SensorNames | app.py:19 | the comprehension `[f"sensor_{i}" for i in range(lo, hi)]`: `hi - lo` names (none for an empty range), name `k` being `sensor_` and the decimal form of `lo + k` |
| Schema.NatToStringInjective | app.py:19 | distinct sensor numbers print as distinct decimal strings |
| Schema.FeatureColsDistinct | app.py:19 | no name occurs twice in the schema |
| Schema.ScoreColumnsNotFeatures | app.py:164-165 | neither result column name is a schema name, so storing the results never overwrites a feature |
| Schema.ManualFields | app.py:154-155 | definition (the literal field list of the manual form); its property is stated by `Schema.ManualFieldsArePrefix` |
| Schema.ManualFieldsArePrefix | app.py:154-155 | the eight manual-entry fields are exactly the first eight schema names, in order |
| Seqs.Slice | app.py:263 | Python's `s[lo:hi]`: the true subrange when in bounds, clamped to the end, empty past the end, with its length in every case |
| Seqs.Count | app.py:178 | `(s == v).sum()` never exceeds the length and is 0 when `v` does not occur |
| Seqs.CountTwoValues | app.py:178-179 | the counts of two different values add up to at most the length, and to exactly the length when every element is one of the two |
| Seqs.Sum | app.py:287 | definition (left-to-right sum used by `.mean()`); bounded by `Seqs.SumBounds` |
| Seqs.SumBounds | app.py:287 | values in [0, 1] sum to between 0 and their number |
| Frames.Zeros | app.py:27 | the column `df[col] = 0` broadcasts to: one zero per row |
| Frames.WithColumn | app.py:27 | `df[name] = values` keeps the table well formed and the row count; the column holds the new values and every other column is unchanged; an existing label keeps its place and a new one goes last |
| Frames.Table.constructor | app.py:157 | the DataFrame object (`Frames.Table`, whose fields the script updates in place) starts valid and holds exactly the given table |
| Frames.Table.SetColumn | app.py:27 | the in-place assignment leaves the table valid and equal to `WithColumn` of its old contents |
| Frames.Project | app.py:28 | `df[cols]` succeeds exactly when every selected name is a column (otherwise pandas raises `KeyError`) |
| Frames.Rows | app.py:273 | `itertuples(index=False)` gives one row per record, with one cell per column in column order, each cell read from its column |
| Frames.SelectRows | app.py:214 | a boolean-mask selection keeps all columns and one row per selected index, with each cell taken from the selected row |
| Frames.Align | app.py:25-27 | definition (the alignment loop as a fold over the schema); its properties are stated by `Frames.AlignWellFormed`, `Frames.MissingMembers`, `Frames.AlignColumns`, `Frames.AlignAddsOnly`, `Frames.AlignCovered` and `Frames.AlignIdempotent`, and the loop itself is proved equal to it in `Inference.AlignFeatures` |
| Frames.AlignWellFormed | app.py:25-27 | alignment keeps the table well formed and keeps its row count |
| Frames.MissingMembers | app.py:25-26 | a name is added by alignment exactly when it is a schema name and not already a column |
| Frames.AlignColumns | app.py:25-27 | after alignment the columns are the original columns, in their order, followed by the missing schema names in schema order |
| Frames.AlignAddsOnly | app.py:25-27 | every original column keeps its cells; every schema name becomes a column; every added column is a schema name holding zero in every row |
| Frames.AlignCovered | app.py:25-27 | a table that already has every schema name is left unchanged |
| Frames.AlignIdempotent | app.py:25-27 | aligning twice gives the same table as aligning once |
| Frames.ProjectAligned | app.py:25-28 | after alignment the projection exists; it has exactly the schema's columns in schema order and the input's row count; each column is the input's column, or zeros where the input lacked it |
| Frames.AlignedRows | app.py:28 | the projected rows have one cell per schema name, in order: the input's cell, or zero |
| Inference.AlignFeatures | app.py:25-27 | the in-place loop leaves the table valid and equal to the alignment fold of the old table |
| Inference.FeatureMatrix | app.py:28 | the feature matrix has one row per record and 24 cells per row; cell `j` comes from schema column `j`, or is zero; columns outside the schema have no influence |
| Inference.Predictions | app.py:29-30 | one label per record, the classifier's answer on that record's feature row |
| Inference.Probabilities | app.py:31 | one probability per record, computed from that record's feature row |
| Inference.MakePredictions | app.py:24-32 | `make_predictions` mutates the table into its aligned form and returns the labels and probabilities of the original table's feature rows |
| Inference.LabelCell | app.py:164 | definition (a label as stored in the numeric `Prediction` column); it is injective, which `Inference.AtRiskOfLabels` and `Report.SummaryOfLabels` use to count the stored labels as the labels themselves |
| Inference.Scored | app.py:162-165 | the scored table is well formed, keeps the row count, and has both result columns |
| Inference.Score | app.py:163-165 | scoring in place leaves the table valid and equal to `Scored` of the old table, and returns the same labels and probabilities |
| Inference.ScoredShape | app.py:163-165 | the scored table holds every schema column and every input column other than the two result columns unchanged; `Prediction` holds the labels and `Failure_Probability` the probabilities, one per row |
| Inference.ScoredColumns | app.py:163-165 | when the input has no result columns, the scored table's columns are the input's, then the missing schema names, then `Prediction` and `Failure_Probability` |
| Inference.SchemaPrefixCell | app.py:25-28 | for a table holding the first `m` schema columns, feature cell `j` is the table's own cell for `j < m` and zero otherwise |
| Inference.ManualInputScored | app.py:151-157 | a record from the manual form is scored on a 24-cell row: its eight entered values in order, then zeros for `sensor_6` .. `sensor_21` |
| Inference.MatchingRows | app.py:214 | the index of `df[col == v]`: strictly increasing, in range, each pointing at a cell equal to `v`, and as many as the count of `v` |
| Inference.MatchingRowsComplete | app.py:214 | a row is selected if and only if its cell equals `v` |
| Inference.AtRisk | app.py:214 | the at-risk table keeps all columns, is well formed, has as many rows as cells equal to 1, and every selected row has prediction 1 |
| Inference.AtRiskOfLabels | app.py:214 | over a stored label column, the filter selects row `i` exactly when label `i` is 1, and as many rows as labels equal to 1 |
| Inference.ScoredAtRisk | app.py:214 | in the scored table the filter selects exactly the rows the classifier labelled 1, and its size is the dashboard's at-risk count |
| Inference.ScoredCountsSum | app.py:178-179 | with a binary classifier, the at-risk count plus the healthy count is the number of records |
| Report.ColsPerPage | app.py:259 | definition (`cols_per_page = 8`); the chunk lemmas below state what it bounds |
| Report.ChunksFrom | app.py:262-263 | definition (the slices `s[start:start+8]` for every chunk start from `start` on); its properties are stated by `Report.ChunksFromFlatten`, `Report.ChunksFromSizes`, `Report.ChunksFromCount` and `Report.ChunksFromAt` |
| Report.Chunks | app.py:262-263 | definition (the chunks of all columns, starts 0, 8, 16, ...); its properties are stated by `Report.ColumnInChunk`, `Report.ColumnInOneChunk`, `Report.ChunkExamples` and `Report.ScoredTableChunks` |
| Report.ChunksFromFlatten | app.py:262-263 | read left to right, the chunks are exactly the columns: nothing lost, nothing repeated, order kept |
| Report.ChunksFromSizes | app.py:262-263 | every chunk has 1 to 8 columns, and every chunk but the last has exactly 8 |
| Report.ChunksFromCount | app.py:262 | there are `ceil(n / 8)` chunks for `n` columns |
| Report.ChunksFromAt | app.py:262-263 | chunk `c` is the slice starting at column `8c` |
| Report.ColumnInChunk | app.py:262-263 | column `j` appears in chunk `j / 8` at position `j % 8` |
| Report.ColumnInOneChunk | app.py:262-263 | with distinct labels, chunk `j / 8` is the only chunk holding column `j` |
| Report.ChunkExamples | app.py:259-263 | 30 columns give chunks of 8, 8, 8 and 6 columns; no columns give no chunks |
| Report.ScoredTableChunks | app.py:262 | a scored table has at least 26 columns, so its report table has at least 4 chunks |
| Report.ColumnWidth | app.py:266 | a chunk's cells share the page width exactly: width times column count is the page width |
| Report.DataRows | app.py:273-276 | one data row per record |
| Report.ChunkLines | app.py:265-276 | a chunk emits one header row plus one row per record |
| Report.ChunkLinesAt | app.py:263-276 | a chunk's header names its 1 to 8 columns; data row `i` holds record `i - 1`'s cells for those columns, as many as the header has names; every row uses the chunk's column width |
| Report.Blocks | app.py:262-276 | definition (one block of rows per chunk, from `start` on); its properties are stated by `Report.BlocksShape` and `Report.BlocksAt` |
| Report.TableLines | app.py:262-276 | definition (all table rows, block after block); its properties are stated by `Report.TableLinesCount` and `Report.TableLinesAt`, and the chunk loop is proved equal to it in `Report.BuildTable` |
| Report.EmitCells | app.py:267-268 | the per-item `pdf.cell` loop emits every item, in order |
| Report.EmitChunk | app.py:263-276 | one pass of the chunk loop emits the chunk's columns and exactly that chunk's block of rows |
| Report.BuildTable | app.py:262-278 | the chunk loop produces exactly the chunks of the table's columns, and the rows of all chunks' blocks, block after block |
| Report.BlocksShape | app.py:262-276 | there is one block per chunk, and each block has one row more than there are records |
| Report.BlocksAt | app.py:262-276 | block `c` is the block of the chunk starting at column `8c` |
| Report.TableLinesCount | app.py:262-276 | the table has `(records + 1) * chunks` rows |
| Report.TableLinesAt | app.py:262-276 | chunk `c` is the slice at `8c`, and table row `c * (records + 1) + i` is row `i` of that chunk's block |
| Report.Summary | app.py:284-287 | the summary's total is the row count, and the two label counts together never exceed it |
| Report.Mean | app.py:287 | definition (`Series.mean()`: the sum over the count, absent for no rows); bounded by `Report.MeanInUnit` |
| Report.MeanInUnit | app.py:287 | the mean of a non-empty list of probabilities is itself a probability |
| Report.SummaryOfLabels | app.py:284-287 | over stored labels and probabilities, the summary counts the labels equal to 1 and to 0 and averages the probabilities |
| Report.ScoredSummary | app.py:284-287 | the report summary of the scored table agrees with the dashboard's counts; with binary labels they add up to the record count; with probabilities in [0, 1] and at least one record, the mean is in [0, 1] |
| Report.SummaryExample | app.py:284-287 | labels 0, 1, 1 with probabilities 0.10, 0.60, 0.95 summarise as 3 engines, 2 at risk, 1 healthy, mean 0.55 |

## Left out

- The Streamlit interface is not modelled: page configuration, CSS, the sidebar widgets, previews, `st.dataframe`, the alert and recommendation messages, the download button. It is presentation only.
- The count-up metric animation and `time.sleep` are not modelled. They only display the counts, and the counts themselves are modelled.
- `joblib.load` and the internals of the scaler and the random forest are not modelled. Both are opaque fitted artifacts, so they enter as the `classify` and `proba` parameters.
- `pd.read_csv` and how a file becomes a table are not modelled. The model starts from a well-formed table of numeric cells.
- Non-numeric columns are not modelled. Every cell is a `real`, and `df[col] = 0` is modelled as a column of `0.0`.
- The plotly charts, `write_image` and `pdf.image` are not modelled. They are rendering and file I/O.
- FPDF page geometry is not modelled: margins, `pdf.w`, automatic page breaks, `ln` spacing, `row_height`, borders, fill colour, the title cell and `pdf.output`. The table is modelled as the ordered list of rows; each row holds its cells and its column width. `page_width` is a parameter.
- Fonts are not modelled. The first chunk's header is bold 10 pt. Every later header is regular 9 pt, because the row font set inside the loop is never switched back.
- Inference.Predictions, Inference.Probabilities: `classify` and `proba` are total functions of a row. The fitted scaler's refusal of a matrix with no rows is not modelled: a CSV with a header and no data makes `scaler.transform` raise at app.py:29, so the script stops before storing results and builds no report, while the model scores such a table to empty label and probability lists.
- Failure cases of a wrongly shaped artifact (a scaler or model fitted on another feature count) are not modelled. Every feature row the model builds has exactly 24 cells, as is proved.
- Inference.Scored: `Failure_Probability` holds the probabilities as returned. The rounding `np.round(probs, 3)` is not modelled, because decimal rounding of reals is presentation.
- Report.Summary: the mean is the exact mean of the stored column, without the `:.2f` formatting; a table with no rows gives no mean (pandas' `nan`), a case the script itself never reaches because the scaler refuses such a table (see above). The summary text itself is not built.
- Report.ChunkLines: a data cell holds the value, not `str(item)`; Python's number formatting is not modelled.
- Report.TableLinesAt: it places each table row within its chunk's block. What that row contains is stated by `Report.ChunkLinesAt`, so the two are read together.
- The code does not reject a table with no columns: the chunk loop at app.py:262 then runs zero times and emits no chunk (`Report.ChunkExamples`). `Report.ScoredTableChunks` shows that a scored table always has at least four chunks.
