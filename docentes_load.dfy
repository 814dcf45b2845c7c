/**
 * The read of the docentes sheet (santillana_format/profesores_clases.py,
 * load_docentes): the rows are read in order, and every docente loaded is
 * tied to its own row, its persona, its course and its desired levels.
 */
module DocentesLoad {
  import opened Text
  import opened ProfesoresClases

  /** One more row adds its own course lines to the docentes loaded. */
  lemma LoadedCountStep(rows: seq<Row>, n: nat, gradeCols: seq<seq<char>>, levelCols: seq<seq<char>>)
    requires 0 < n <= |rows|
    requires |Loaded(rows, n - 1, gradeCols, levelCols)| == CourseLines(rows[..n - 1])
    ensures |Loaded(rows, n, gradeCols, levelCols)| == CourseLines(rows[..n])
  {
    RowCountsStep(rows, n - 1);
  }

  /** The docentes loaded from the first `n` rows number their course lines. */
  lemma {:induction false} LoadedCount(rows: seq<Row>, n: nat, gradeCols: seq<seq<char>>, levelCols: seq<seq<char>>)
    requires n <= |rows|
    ensures |Loaded(rows, n, gradeCols, levelCols)| == CourseLines(rows[..n])
  {
    if n == 0 {
      assert rows[..0] == [];
    } else {
      LoadedCount(rows, n - 1, gradeCols, levelCols);
      LoadedCountStep(rows, n, gradeCols, levelCols);
    }
  }

  /** Appending the docentes of row `i` keeps every docente tied to its own, earlier row. */
  lemma FromRowsAppend(rows: seq<Row>, ds: seq<Docente>, i: nat, gradeCols: seq<seq<char>>, levelCols: seq<seq<char>>)
    requires i < |rows|
    requires AllFromRows(rows, ds, i + 2, gradeCols, levelCols)
    ensures AllFromRows(rows, ds + RowLines(rows, i, gradeCols, levelCols), i + 3, gradeCols, levelCols)
  {
    var ls := RowLines(rows, i, gradeCols, levelCols);
    forall d | d in ds + ls ensures d.row < i + 3 && FromRow(rows, d, gradeCols, levelCols) {
      if d !in ds {
        assert d in ls;
      }
    }
  }

  /**
   * Reads the docentes of the spreadsheet rows: a row without persona id or
   * course is counted invalid and yields nothing; any other row yields one
   * docente per listed course.
   */
  method LoadDocentes(rows: seq<Row>, gradeCols: seq<seq<char>>, levelCols: seq<seq<char>>)
    returns (docentes: seq<Docente>, invalidos: nat)
    requires GradeColumnsOnly(gradeCols) && LevelColumnsOnly(levelCols)
    ensures invalidos == InvalidRows(rows)
    ensures |docentes| == CourseLines(rows)
    ensures AllFromRows(rows, docentes, |rows| + 2, gradeCols, levelCols)
    ensures docentes == Loaded(rows, |rows|, gradeCols, levelCols)
  {
    docentes := [];
    invalidos := 0;
    for i := 0 to |rows|
      invariant invalidos == InvalidRows(rows[..i])
      invariant docentes == Loaded(rows, i, gradeCols, levelCols)
      invariant AllFromRows(rows, docentes, i + 2, gradeCols, levelCols)
    {
      RowCountsStep(rows, i);
      var ds, invalid := LoadRow(rows, i, gradeCols, levelCols);
      FromRowsAppend(rows, docentes, i, gradeCols, levelCols);
      if invalid {
        invalidos := invalidos + 1;
      }
      docentes := docentes + ds;
    }
    assert rows[..|rows|] == rows;
    LoadedCount(rows, |rows|, gradeCols, levelCols);
  }

}
