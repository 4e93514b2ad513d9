/** A pandas-style table: ordered column labels, one column of numeric cells
    per label, and a row count shared by every column. */
module Frames {
  import opened Seqs

  datatype Option<T> = None | Some(value: T)

  datatype Frame = Frame(columns: seq<string>, data: map<string, seq<real>>, rows: nat)

  /** Labels are unique, the map holds exactly the listed columns, and every
      column has one cell per row. */
  ghost predicate WellFormed(f: Frame) {
    && Distinct(f.columns)
    && (forall c :: c in f.data <==> c in f.columns)
    && (forall c :: c in f.data ==> |f.data[c]| == f.rows)
  }

  /** A column of `n` zeros (what `df[col] = 0` broadcasts to). */
  function Zeros(n: nat): (z: seq<real>)
    ensures |z| == n
    ensures forall i :: 0 <= i < n ==> z[i] == 0.0
  {
    seq(n, _ => 0.0)
  }

  /** `df[name] = values`: an existing column is overwritten where it stands,
      a new one is appended after the last column. */
  function WithColumn(f: Frame, name: string, values: seq<real>): (g: Frame)
    requires |values| == f.rows
    ensures WellFormed(f) ==> WellFormed(g)
    ensures g.rows == f.rows
    ensures name in g.data && g.data[name] == values
    ensures forall c :: c in f.data && c != name ==> c in g.data && g.data[c] == f.data[c]
    ensures name in f.columns ==> g.columns == f.columns
    ensures name !in f.columns ==> g.columns == f.columns + [name]
  {
    Frame(if name in f.columns then f.columns else f.columns + [name],
          f.data[name := values], f.rows)
  }

  /** The alignment loop of `make_predictions`, as a fold over the schema:
      each schema name not yet a column is added as an all-zero column. */
  function Align(f: Frame, schema: seq<string>): Frame
    decreases |schema|
  {
    if schema == [] then f
    else
      var next := if schema[0] in f.columns then f else WithColumn(f, schema[0], Zeros(f.rows));
      Align(next, schema[1..])
  }

  /** The schema names that are not in `cols`, in schema order. */
  function Missing(schema: seq<string>, cols: seq<string>): (r: seq<string>)
    ensures |r| <= |schema|
  {
    if schema == [] then []
    else (if schema[0] in cols then [] else [schema[0]]) + Missing(schema[1..], cols)
  }

  /** `df[schema]`: the selected columns in the given order, or `None`
      (pandas' KeyError) when one of them is absent. */
  function Project(f: Frame, schema: seq<string>): (r: Option<Frame>)
    ensures r.Some? <==> forall c :: c in schema ==> c in f.data
  {
    if forall c :: c in schema ==> c in f.data
    then Some(Frame(schema, map c | c in schema :: f.data[c], f.rows))
    else None
  }

  /** `df.itertuples(index=False)`: row `i` lists the cells of row `i` in
      column order. */
  function Rows(f: Frame): (r: seq<seq<real>>)
    requires WellFormed(f)
    ensures |r| == f.rows
    ensures forall i :: 0 <= i < f.rows ==> |r[i]| == |f.columns|
    ensures forall i, j :: 0 <= i < f.rows && 0 <= j < |f.columns| ==> r[i][j] == f.data[f.columns[j]][i]
  {
    seq(f.rows, i requires 0 <= i < f.rows =>
      seq(|f.columns|, j requires 0 <= j < |f.columns| => f.data[f.columns[j]][i]))
  }

  /** The rows at the given indices, in that order, with all columns
      (`df[mask]` for a boolean mask). */
  function SelectRows(f: Frame, idx: seq<nat>): (g: Frame)
    requires WellFormed(f)
    requires forall k :: 0 <= k < |idx| ==> idx[k] < f.rows
    ensures g.columns == f.columns && g.rows == |idx|
    ensures WellFormed(g)
    ensures forall c, k :: c in f.data && 0 <= k < |idx| ==> c in g.data && g.data[c][k] == f.data[c][idx[k]]
  {
    Frame(f.columns,
          map c | c in f.data :: seq(|idx|, k requires 0 <= k < |idx| => f.data[c][idx[k]]),
          |idx|)
  }

  /** A well-formed table has at least as many columns as any set of labels
      it holds. */
  lemma LabelCount(f: Frame, names: set<string>)
    requires WellFormed(f) && names <= f.data.Keys
    ensures |f.columns| >= |names|
  {
    assert Elems(f.columns) == f.data.Keys;
    SubsetCard(names, Elems(f.columns));
    ElemsCard(f.columns);
  }

  /** Assigning two new, different columns appends them in that order. */
  lemma AppendTwoColumns(f: Frame, n1: string, v1: seq<real>, n2: string, v2: seq<real>)
    requires |v1| == f.rows && |v2| == f.rows
    requires n1 != n2 && n1 !in f.columns && n2 !in f.columns
    ensures WithColumn(WithColumn(f, n1, v1), n2, v2).columns == f.columns + [n1, n2]
  {
    assert WithColumn(f, n1, v1).columns == f.columns + [n1];
  }

  // ----- properties of alignment -----

  /** Alignment keeps a table well formed and its row count unchanged. */
  lemma {:induction false} AlignWellFormed(f: Frame, schema: seq<string>)
    requires WellFormed(f)
    ensures WellFormed(Align(f, schema))
    ensures Align(f, schema).rows == f.rows
    decreases |schema|
  {
    if schema != [] {
      var next := if schema[0] in f.columns then f else WithColumn(f, schema[0], Zeros(f.rows));
      AlignWellFormed(next, schema[1..]);
    }
  }

  /** The missing names are exactly the schema names not among `cols`. */
  lemma {:induction false} MissingMembers(schema: seq<string>, cols: seq<string>)
    ensures forall c :: c in Missing(schema, cols) <==> c in schema && c !in cols
  {
    if schema != [] {
      MissingMembers(schema[1..], cols);
      forall c | c in schema ensures c == schema[0] || c in schema[1..] {
        var k :| 0 <= k < |schema| && schema[k] == c;
        if k > 0 {
          assert schema[1..][k - 1] == c;
        }
      }
    }
  }

  lemma {:induction false} MissingAfterAdding(schema: seq<string>, cols: seq<string>, s: string)
    requires s !in schema
    ensures Missing(schema, cols + [s]) == Missing(schema, cols)
  {
    if schema != [] {
      MissingAfterAdding(schema[1..], cols, s);
    }
  }

  /** A schema head not yet among the columns is missing first; the rest is
      what remains missing once it has been added. */
  lemma MissingStep(schema: seq<string>, cols: seq<string>)
    requires schema != [] && Distinct(schema) && schema[0] !in cols
    ensures Missing(schema, cols) == [schema[0]] + Missing(schema[1..], cols + [schema[0]])
  {
    DistinctTail(schema);
    MissingAfterAdding(schema[1..], cols, schema[0]);
  }

  /** With a duplicate-free schema, the aligned table lists the original
      columns first, then the missing schema names in schema order. */
  lemma {:induction false} AlignColumns(f: Frame, schema: seq<string>)
    requires Distinct(schema)
    ensures Align(f, schema).columns == f.columns + Missing(schema, f.columns)
    decreases |schema|
  {
    if schema != [] {
      var s, rest := schema[0], schema[1..];
      DistinctTail(schema);
      if s in f.columns {
        assert Missing(schema, f.columns) == Missing(rest, f.columns);
        AlignColumns(f, rest);
      } else {
        var next := WithColumn(f, s, Zeros(f.rows));
        var more := Missing(rest, next.columns);
        assert Align(f, schema) == Align(next, rest);
        assert Missing(schema, f.columns) == [s] + more by {
          MissingStep(schema, f.columns);
        }
        AlignColumns(next, rest);
        assert next.columns == f.columns + [s];
        AppendStep(f.columns, [s], more, f.columns + ([s] + more));
      }
    }
  }

  /** Alignment only adds: every original column keeps its cells, every
      schema name becomes a column, and every added column is a schema name
      holding zero on every row. */
  lemma {:induction false} AlignAddsOnly(f: Frame, schema: seq<string>)
    requires WellFormed(f)
    ensures forall c :: c in f.data ==> c in Align(f, schema).data && Align(f, schema).data[c] == f.data[c]
    ensures forall c :: c in schema ==> c in Align(f, schema).data
    ensures forall c :: c in Align(f, schema).data && c !in f.data ==> c in schema && Align(f, schema).data[c] == Zeros(f.rows)
    decreases |schema|
  {
    if schema != [] {
      var next := if schema[0] in f.columns then f else WithColumn(f, schema[0], Zeros(f.rows));
      AlignAddsOnly(next, schema[1..]);
      forall c | c in schema ensures c in Align(f, schema).data {
        if c != schema[0] {
          assert c in schema[1..];
        }
      }
    }
  }

  /** A table that already has every schema name is left unchanged. */
  lemma {:induction false} AlignCovered(f: Frame, schema: seq<string>)
    requires forall c :: c in schema ==> c in f.columns
    ensures Align(f, schema) == f
    decreases |schema|
  {
    if schema != [] {
      assert forall c :: c in schema[1..] ==> c in schema;
      AlignCovered(f, schema[1..]);
    }
  }

  /** Aligning twice is the same as aligning once. */
  lemma AlignIdempotent(f: Frame, schema: seq<string>)
    requires WellFormed(f)
    ensures Align(Align(f, schema), schema) == Align(f, schema)
  {
    AlignAddsOnly(f, schema);
    AlignWellFormed(f, schema);
    AlignCovered(Align(f, schema), schema);
  }

  /** After alignment the projection onto the schema exists; it has exactly
      the schema's columns in schema order, one row per input row, and each
      cell is the input's cell or zero where the input lacked the column;
      no other input column has any influence. */
  lemma ProjectAligned(f: Frame, schema: seq<string>)
    requires WellFormed(f) && Distinct(schema)
    ensures Project(Align(f, schema), schema).Some?
    ensures var x := Project(Align(f, schema), schema).value;
      && WellFormed(x)
      && x.columns == schema
      && x.rows == f.rows
      && forall c :: c in schema ==> x.data[c] == if c in f.data then f.data[c] else Zeros(f.rows)
  {
    AlignAddsOnly(f, schema);
    AlignWellFormed(f, schema);
  }

  /** The cell column `c` contributes to row `i` after alignment: the
      input's cell, or zero when the input has no such column. */
  function CellOrZero(f: Frame, c: string, i: nat): real
    requires WellFormed(f) && i < f.rows
  {
    if c in f.data then f.data[c][i] else 0.0
  }

  /** For a table holding the first `m` names of a duplicate-free schema,
      the cell a schema name contributes is the table's own cell for those
      names and zero for the rest. */
  lemma PrefixCellOrZero(f: Frame, schema: seq<string>, m: nat, i: nat, j: nat)
    requires WellFormed(f) && Distinct(schema) && m <= |schema| && f.columns == schema[..m]
    requires i < f.rows && j < |schema|
    ensures CellOrZero(f, schema[j], i) == if j < m then Rows(f)[i][j] else 0.0
  {
    if j < m {
      assert f.columns[j] == schema[j];
    } else {
      forall k | 0 <= k < m ensures f.columns[k] != schema[j] {
        assert f.columns[k] == schema[k];
      }
    }
  }

  /** The rows of `df[schema]` after alignment: every row has one cell per
      schema name, in schema order, read from the input or zero. */
  function AlignedRows(f: Frame, schema: seq<string>): (x: seq<seq<real>>)
    requires WellFormed(f) && Distinct(schema)
    ensures |x| == f.rows
    ensures forall i :: 0 <= i < |x| ==> |x[i]| == |schema|
    ensures forall i, j :: 0 <= i < |x| && 0 <= j < |schema| ==> x[i][j] == CellOrZero(f, schema[j], i)
  {
    ProjectAligned(f, schema);
    Rows(Project(Align(f, schema), schema).value)
  }

  // ----- the table pandas mutates in place -----

  /** A DataFrame object whose columns are added and overwritten in place. */
  class Table {
    var columns: seq<string>
    var data: map<string, seq<real>>
    var rows: nat

    /** The table's current contents as a value. */
    function View(): Frame
      reads this
    {
      Frame(columns, data, rows)
    }

    ghost predicate Valid()
      reads this
    {
      WellFormed(View())
    }

    constructor (f: Frame)
      requires WellFormed(f)
      ensures Valid() && View() == f
    {
      columns, data, rows := f.columns, f.data, f.rows;
    }

    /** `df[name] = values`. */
    method SetColumn(name: string, values: seq<real>)
      requires Valid() && |values| == rows
      modifies this
      ensures Valid()
      ensures View() == WithColumn(old(View()), name, values)
    {
      if name !in columns {
        columns := columns + [name];
      }
      data := data[name := values];
    }
  }
}
