/**
  What `deidentify_data` guarantees for every analyzer and anonymizer:
  how each output cell relates to its input cell, that the counts are
  exactly the findings, that blank cells never reach the analyzer, and what
  the report says when nothing is found.
 */
module PipelineProperties {
  import opened Text
  import opened EntityCounts
  import opened Report
  import opened Pipeline

  /** Every data cell of the output is its input cell, untouched, unless the
      cell is not blank and the analyzer found something in it; in that case
      it is the anonymizer's text for the ORIGINAL (unstripped) cell and the
      full list of findings. A cell of whitespace only is always untouched. */
  lemma DataCellOutcome(analyze: Analyzer, anonymize: Anonymizer, grid: seq<seq<string>>, i: nat, j: nat)
    requires 1 <= i < |grid| && j < |grid[i]|
    ensures Deidentify(analyze, anonymize, grid).Success?
    ensures var cell, out := grid[i][j], Deidentify(analyze, anonymize, grid).value.rows[i][j];
      && ((forall c :: 0 <= c < |cell| ==> IsSpace(cell[c])) ==> out == cell)
      && (!IsBlank(cell) && analyze(cell, Language) != [] ==> out == anonymize(cell, analyze(cell, Language), Replacement))
      && (out != cell ==> !IsBlank(cell) && analyze(cell, Language) != [])
  {
    BlankIffAllSpace(grid[i][j]);
    var data := grid[1..];
    assert data[i - 1] == grid[i];
  }

  /** The number of findings in the data rows: for every non-blank cell, the
      number of results the analyzer returns for it. */
  function CellFindings(analyze: Analyzer, cell: string): nat {
    if IsBlank(cell) then 0 else |analyze(cell, Language)|
  }

  function RowFindings(analyze: Analyzer, row: seq<string>): nat {
    if row == [] then 0 else RowFindings(analyze, row[..|row| - 1]) + CellFindings(analyze, row[|row| - 1])
  }

  function Findings(analyze: Analyzer, rows: seq<seq<string>>): nat {
    if rows == [] then 0 else Findings(analyze, rows[..|rows| - 1]) + RowFindings(analyze, rows[|rows| - 1])
  }

  lemma {:induction false} RowTypesLength(analyze: Analyzer, row: seq<string>)
    ensures |RowTypes(analyze, row)| == RowFindings(analyze, row)
  {
    if row != [] {
      RowTypesLength(analyze, row[..|row| - 1]);
    }
  }

  lemma {:induction false} GridTypesLength(analyze: Analyzer, rows: seq<seq<string>>)
    ensures |GridTypes(analyze, rows)| == Findings(analyze, rows)
  {
    if rows != [] {
      GridTypesLength(analyze, rows[..|rows| - 1]);
      RowTypesLength(analyze, rows[|rows| - 1]);
    }
  }

  /** The number of analyzer results of entity type `k`. */
  function ResultsOfType(results: seq<Detection>, k: string): nat {
    if results == [] then 0
    else ResultsOfType(results[..|results| - 1], k) + (if results[|results| - 1].entityType == k then 1 else 0)
  }

  /** The number of findings of entity type `k` in the data rows, over the
      non-blank cells. */
  function CellFindingsOf(analyze: Analyzer, cell: string, k: string): nat {
    if IsBlank(cell) then 0 else ResultsOfType(analyze(cell, Language), k)
  }

  function RowFindingsOf(analyze: Analyzer, row: seq<string>, k: string): nat {
    if row == [] then 0 else RowFindingsOf(analyze, row[..|row| - 1], k) + CellFindingsOf(analyze, row[|row| - 1], k)
  }

  function FindingsOf(analyze: Analyzer, rows: seq<seq<string>>, k: string): nat {
    if rows == [] then 0 else FindingsOf(analyze, rows[..|rows| - 1], k) + RowFindingsOf(analyze, rows[|rows| - 1], k)
  }

  lemma {:induction false} EntityTypesOccurrences(results: seq<Detection>, k: string)
    ensures multiset(EntityTypes(results))[k] == ResultsOfType(results, k)
  {
    if results != [] {
      var n := |results| - 1;
      EntityTypesOccurrences(results[..n], k);
      assert multiset(EntityTypes(results)) == multiset(EntityTypes(results[..n])) + multiset{results[n].entityType};
    }
  }

  lemma {:induction false} RowTypesOccurrences(analyze: Analyzer, row: seq<string>, k: string)
    ensures multiset(RowTypes(analyze, row))[k] == RowFindingsOf(analyze, row, k)
  {
    if row != [] {
      var n := |row| - 1;
      RowTypesOccurrences(analyze, row[..n], k);
      if !IsBlank(row[n]) {
        EntityTypesOccurrences(analyze(row[n], Language), k);
      }
      assert multiset(RowTypes(analyze, row)) == multiset(RowTypes(analyze, row[..n])) + multiset(CellTypes(analyze, row[n]));
    }
  }

  lemma {:induction false} GridTypesOccurrences(analyze: Analyzer, rows: seq<seq<string>>, k: string)
    ensures multiset(GridTypes(analyze, rows))[k] == FindingsOf(analyze, rows, k)
  {
    if rows != [] {
      var n := |rows| - 1;
      GridTypesOccurrences(analyze, rows[..n], k);
      RowTypesOccurrences(analyze, rows[n], k);
      assert multiset(GridTypes(analyze, rows)) == multiset(GridTypes(analyze, rows[..n])) + multiset(RowTypes(analyze, rows[n]));
    }
  }

  /** The report the pipeline returns is rendered from a dict whose counts
      are exactly the findings: each entity type's count is the number of
      analyzer results of that type over the non-blank data cells
      (duplicates included), the dict holds exactly the types with at least
      one finding, and the counts add up to the number of findings. */
  lemma CountsAreFindings(analyze: Analyzer, anonymize: Anonymizer, grid: seq<seq<string>>)
    requires grid != []
    ensures var d := Tally(GridTypes(analyze, grid[1..]));
      && Deidentify(analyze, anonymize, grid).value.report == ReportText(d)
      && Valid(d)
      && (forall k :: Get(d, k) == FindingsOf(analyze, grid[1..], k))
      && (forall k :: k in d.count <==> FindingsOf(analyze, grid[1..], k) > 0)
      && Total(d) == Findings(analyze, grid[1..])
  {
    var ts := GridTypes(analyze, grid[1..]);
    TallyIsExact(ts);
    GridTypesLength(analyze, grid[1..]);
    forall k ensures Get(Tally(ts), k) == FindingsOf(analyze, grid[1..], k) {
      GridTypesOccurrences(analyze, grid[1..], k);
    }
  }

  lemma {:induction false} RowsAgree(a1: Analyzer, a2: Analyzer, anonymize: Anonymizer, row: seq<string>)
    requires forall j :: 0 <= j < |row| && !IsBlank(row[j]) ==> a1(row[j], Language) == a2(row[j], Language)
    ensures ProcessRow(a1, anonymize, row) == ProcessRow(a2, anonymize, row)
    ensures RowTypes(a1, row) == RowTypes(a2, row)
  {
    if row != [] {
      var n := |row| - 1;
      var front := row[..n];
      forall j | 0 <= j < |front| && !IsBlank(front[j])
        ensures a1(front[j], Language) == a2(front[j], Language)
      {
        assert front[j] == row[j];
      }
      RowsAgree(a1, a2, anonymize, front);
      assert CellTypes(a1, row[n]) == CellTypes(a2, row[n]);
    }
  }

  lemma {:induction false} GridsAgree(a1: Analyzer, a2: Analyzer, anonymize: Anonymizer, rows: seq<seq<string>>)
    requires forall i, j :: 0 <= i < |rows| && 0 <= j < |rows[i]| && !IsBlank(rows[i][j]) ==>
      a1(rows[i][j], Language) == a2(rows[i][j], Language)
    ensures ProcessRows(a1, anonymize, rows) == ProcessRows(a2, anonymize, rows)
    ensures GridTypes(a1, rows) == GridTypes(a2, rows)
  {
    if rows != [] {
      var n := |rows| - 1;
      var front := rows[..n];
      forall i, j | 0 <= i < |front| && 0 <= j < |front[i]| && !IsBlank(front[i][j])
        ensures a1(front[i][j], Language) == a2(front[i][j], Language)
      {
        assert front[i] == rows[i];
      }
      GridsAgree(a1, a2, anonymize, front);
      RowsAgree(a1, a2, anonymize, rows[n]);
    }
  }

  /** Only the non-blank cells of the data rows reach the analyzer: two
      analyzers that agree on those cells give the same rows and the same
      report, however they differ on blank cells, on the header row's cells
      and on every other text. */
  lemma AnalyzerSeesOnlyNonBlankCells(a1: Analyzer, a2: Analyzer, anonymize: Anonymizer, grid: seq<seq<string>>)
    requires forall i, j :: 1 <= i < |grid| && 0 <= j < |grid[i]| && !IsBlank(grid[i][j]) ==>
      a1(grid[i][j], Language) == a2(grid[i][j], Language)
    ensures Deidentify(a1, anonymize, grid) == Deidentify(a2, anonymize, grid)
  {
    if grid != [] {
      var data := grid[1..];
      assert forall i :: 0 <= i < |data| ==> data[i] == grid[i + 1];
      GridsAgree(a1, a2, anonymize, data);
    }
  }

  /** The analyzer finds nothing in any non-blank cell of `rows`. */
  ghost predicate NothingFound(analyze: Analyzer, rows: seq<seq<string>>) {
    forall i, j :: 0 <= i < |rows| && 0 <= j < |rows[i]| && !IsBlank(rows[i][j]) ==> analyze(rows[i][j], Language) == []
  }

  lemma {:induction false} RowFindingsZero(analyze: Analyzer, row: seq<string>)
    ensures RowFindings(analyze, row) == 0 <==>
      forall j :: 0 <= j < |row| && !IsBlank(row[j]) ==> analyze(row[j], Language) == []
  {
    if row != [] {
      var n := |row| - 1;
      RowFindingsZero(analyze, row[..n]);
      assert forall j :: 0 <= j < n ==> row[..n][j] == row[j];
    }
  }

  lemma {:induction false} FindingsZero(analyze: Analyzer, rows: seq<seq<string>>)
    ensures Findings(analyze, rows) == 0 <==> NothingFound(analyze, rows)
  {
    if rows != [] {
      var n := |rows| - 1;
      FindingsZero(analyze, rows[..n]);
      RowFindingsZero(analyze, rows[n]);
      assert forall i :: 0 <= i < n ==> rows[..n][i] == rows[i];
    }
  }

  /** When nothing is found, every data row is copied through unchanged. */
  lemma NothingFoundKeepsRows(analyze: Analyzer, anonymize: Anonymizer, rows: seq<seq<string>>)
    requires NothingFound(analyze, rows)
    ensures ProcessRows(analyze, anonymize, rows) == rows
  {
    var out := ProcessRows(analyze, anonymize, rows);
    forall i | 0 <= i < |rows| ensures out[i] == rows[i] {
      forall j | 0 <= j < |rows[i]| ensures out[i][j] == rows[i][j] {
        assert !IsBlank(rows[i][j]) ==> analyze(rows[i][j], Language) == [];
      }
    }
  }

  /** The report of the data rows says that no PII was found exactly when
      nothing is found in them. */
  lemma NoPiiReportIffNothingFound(analyze: Analyzer, rows: seq<seq<string>>)
    ensures ReportText(Tally(GridTypes(analyze, rows))) == Header + NoPiiLine <==> NothingFound(analyze, rows)
  {
    var ts := GridTypes(analyze, rows);
    TallyIsExact(ts);
    ReportNoPiiIff(Tally(ts));
    GridTypesLength(analyze, rows);
    FindingsZero(analyze, rows);
    if ts != [] {
      assert ts[0] in Tally(ts).count;
    }
  }

  /** The report says that no PII was found exactly when the analyzer finds
      nothing in any non-blank data cell, and then the output rows are the
      input rows. */
  lemma NoFindingsIff(analyze: Analyzer, anonymize: Anonymizer, grid: seq<seq<string>>)
    requires grid != []
    ensures var r := Deidentify(analyze, anonymize, grid);
      && r.Success?
      && (r.value.report == Header + NoPiiLine <==> NothingFound(analyze, grid[1..]))
      && (r.value.report == Header + NoPiiLine ==> r.value.rows == grid)
  {
    var data := grid[1..];
    NoPiiReportIffNothingFound(analyze, data);
    if NothingFound(analyze, data) {
      NothingFoundKeepsRows(analyze, anonymize, data);
      assert [grid[0]] + data == grid;
    }
  }
}
