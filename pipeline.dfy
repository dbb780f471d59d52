/**
  `deidentify_data` of app.py: the header row is copied through, every other
  row is copied and each of its non-blank cells is analysed for PII; a cell
  with findings is replaced by the anonymizer's text, and every finding is
  counted under its entity type. The counts are then rendered as the summary
  report.

  The Presidio analyzer and anonymizer are not part of this model: they are
  passed in as functions. CSV text is not parsed or written here either: the
  input is the grid `csv.reader` yields and the output the grid handed to
  `csv.writer`.
 */
module Pipeline {
  import opened Text
  import opened EntityCounts
  import opened Report

  /** One finding of the analyzer in a cell: its entity type and its span. */
  datatype Detection = Detection(entityType: string, start: int, end: int)

  /** `analyzer.analyze(text=..., language=...)`. */
  type Analyzer = (string, string) -> seq<Detection>

  /** `anonymizer.anonymize(text=..., analyzer_results=..., operators=...)`,
      with the operators given by the replacement text of the single
      "DEFAULT" replace operator. */
  type Anonymizer = (string, seq<Detection>, string) -> string

  /** The language every cell is analysed in. */
  const Language: string := "en"

  /** The `new_value` of the "DEFAULT" replace operator. */
  const Replacement: string := "XXXXXX"

  /** `next(reader)` raises when the CSV text has no row at all. */
  datatype Error = MissingHeader

  datatype Result<T> = Success(value: T) | Failure(error: Error)

  /** What `deidentify_data` returns: the de-identified rows (before
      `csv.writer` turns them into text) and the report. */
  datatype Output = Output(rows: seq<seq<string>>, report: string)

  /** The entity types of the analyzer results, one per result, in order. */
  function EntityTypes(results: seq<Detection>): (ts: seq<string>)
    ensures |ts| == |results|
    ensures forall e :: 0 <= e < |results| ==> ts[e] == results[e].entityType
  {
    if results == [] then []
    else EntityTypes(results[..|results| - 1]) + [results[|results| - 1].entityType]
  }

  /** The text a cell has in the output. */
  function ScanCell(analyze: Analyzer, anonymize: Anonymizer, cell: string): string {
    if IsBlank(cell) then cell
    else
      var results := analyze(cell, Language);
      if results != [] then anonymize(cell, results, Replacement) else cell
  }

  /** The entity types counted for a cell: none for a blank cell, otherwise
      one per analyzer result. */
  function CellTypes(analyze: Analyzer, cell: string): seq<string> {
    if IsBlank(cell) then [] else EntityTypes(analyze(cell, Language))
  }

  /** The output row for a data row: each cell scanned in place. */
  function ProcessRow(analyze: Analyzer, anonymize: Anonymizer, row: seq<string>): (out: seq<string>)
    ensures |out| == |row|
    ensures forall j :: 0 <= j < |row| ==> out[j] == ScanCell(analyze, anonymize, row[j])
  {
    if row == [] then []
    else ProcessRow(analyze, anonymize, row[..|row| - 1]) + [ScanCell(analyze, anonymize, row[|row| - 1])]
  }

  /** The entity types counted for a row, cell by cell from left to right. */
  function RowTypes(analyze: Analyzer, row: seq<string>): seq<string> {
    if row == [] then []
    else RowTypes(analyze, row[..|row| - 1]) + CellTypes(analyze, row[|row| - 1])
  }

  /** The output rows for the data rows, in order. */
  function ProcessRows(analyze: Analyzer, anonymize: Anonymizer, rows: seq<seq<string>>): (out: seq<seq<string>>)
    ensures |out| == |rows|
    ensures forall i :: 0 <= i < |rows| ==> out[i] == ProcessRow(analyze, anonymize, rows[i])
  {
    if rows == [] then []
    else ProcessRows(analyze, anonymize, rows[..|rows| - 1]) + [ProcessRow(analyze, anonymize, rows[|rows| - 1])]
  }

  /** The entity types counted for the data rows, row by row. */
  function GridTypes(analyze: Analyzer, rows: seq<seq<string>>): seq<string> {
    if rows == [] then []
    else GridTypes(analyze, rows[..|rows| - 1]) + RowTypes(analyze, rows[|rows| - 1])
  }

  /** What `deidentify_data` returns for the parsed rows `grid`. */
  function Deidentify(analyze: Analyzer, anonymize: Anonymizer, grid: seq<seq<string>>): (r: Result<Output>)
    ensures r.Failure? <==> grid == []
    ensures r.Success? ==> |r.value.rows| == |grid| && r.value.rows[0] == grid[0]
    ensures r.Success? ==> forall i :: 0 <= i < |grid| ==> |r.value.rows[i]| == |grid[i]|
  {
    if grid == [] then Failure(MissingHeader)
    else
      var data := grid[1..];
      Success(Output([grid[0]] + ProcessRows(analyze, anonymize, data),
                     ReportText(Tally(GridTypes(analyze, data)))))
  }

  lemma RowTypesStep(analyze: Analyzer, row: seq<string>, j: nat)
    requires j < |row|
    ensures RowTypes(analyze, row[..j + 1]) == RowTypes(analyze, row[..j]) + CellTypes(analyze, row[j])
  {
    assert row[..j + 1][..j] == row[..j];
  }

  lemma RowCountsStep(analyze: Analyzer, counts: CountMap, row: seq<string>, j: nat)
    requires j < |row|
    ensures AddAll(AddAll(counts, RowTypes(analyze, row[..j])), CellTypes(analyze, row[j]))
         == AddAll(counts, RowTypes(analyze, row[..j + 1]))
  {
    RowTypesStep(analyze, row, j);
    AddAllAppend(counts, RowTypes(analyze, row[..j]), CellTypes(analyze, row[j]));
  }

  lemma GridTypesStep(analyze: Analyzer, rows: seq<seq<string>>, i: nat)
    requires 1 <= i < |rows|
    ensures GridTypes(analyze, rows[1..i + 1]) == GridTypes(analyze, rows[1..i]) + RowTypes(analyze, rows[i])
  {
    assert rows[1..i + 1][..i - 1] == rows[1..i];
  }

  lemma ProcessRowsStep(analyze: Analyzer, anonymize: Anonymizer, rows: seq<seq<string>>, i: nat)
    requires 1 <= i < |rows|
    ensures ProcessRows(analyze, anonymize, rows[1..i + 1])
         == ProcessRows(analyze, anonymize, rows[1..i]) + [ProcessRow(analyze, anonymize, rows[i])]
  {
  }

  /** The counting loop over one cell's analyzer results: each result adds
      one to the count of its entity type. */
  method CountResults(counts: CountMap, results: seq<Detection>) returns (updated: CountMap)
    ensures updated == AddAll(counts, EntityTypes(results))
  {
    updated := counts;
    var e := 0;
    while e < |results|
      invariant 0 <= e <= |results|
      invariant updated == AddAll(counts, EntityTypes(results[..e]))
    {
      assert results[..e + 1][..e] == results[..e];
      updated := Increment(updated, results[e].entityType);
      e := e + 1;
    }
    assert results[..e] == results;
  }

  /** The work on one cell: a blank cell is skipped; otherwise the cell is
      analysed, and when there are findings its text becomes the
      anonymizer's and each finding is counted. */
  method DeidentifyCell(analyze: Analyzer, anonymize: Anonymizer, cell: string, counts: CountMap)
    returns (text: string, updated: CountMap)
    ensures text == ScanCell(analyze, anonymize, cell)
    ensures updated == AddAll(counts, CellTypes(analyze, cell))
  {
    text, updated := cell, counts;
    if Strip(cell) == "" {
      return;
    }
    var results := analyze(cell, Language);
    if results != [] {
      text := anonymize(cell, results, Replacement);
      updated := CountResults(counts, results);
    }
  }

  /** The work on one data row: a copy of the row whose non-blank cells with
      findings are overwritten in place, and the counts with the row's
      findings added. */
  method DeidentifyRow(analyze: Analyzer, anonymize: Anonymizer, row: seq<string>, counts: CountMap)
    returns (out: seq<string>, updated: CountMap)
    ensures out == ProcessRow(analyze, anonymize, row)
    ensures updated == AddAll(counts, RowTypes(analyze, row))
  {
    var outRow := row;
    updated := counts;
    var j := 0;
    while j < |row|
      invariant 0 <= j <= |row|
      invariant |outRow| == |row|
      invariant forall k :: 0 <= k < j ==> outRow[k] == ScanCell(analyze, anonymize, row[k])
      invariant forall k :: j <= k < |row| ==> outRow[k] == row[k]
      invariant updated == AddAll(counts, RowTypes(analyze, row[..j]))
    {
      var cell := row[j];
      var text;
      text, updated := DeidentifyCell(analyze, anonymize, cell, updated);
      outRow := outRow[j := text];
      RowCountsStep(analyze, counts, row, j);
      j := j + 1;
    }
    assert row[..j] == row;
    out := outRow;
    assert out == ProcessRow(analyze, anonymize, row);
  }

  /** `deidentify_data` on the rows `csv.reader` produced from the input. */
  method DeidentifyData(analyze: Analyzer, anonymize: Anonymizer, grid: seq<seq<string>>) returns (r: Result<Output>)
    ensures r == Deidentify(analyze, anonymize, grid)
  {
    if grid == [] {
      return Failure(MissingHeader);
    }
    var header := grid[0];
    var lines := [header];
    var counts := Empty;
    var i := 1;
    while i < |grid|
      invariant 1 <= i <= |grid|
      invariant lines == [header] + ProcessRows(analyze, anonymize, grid[1..i])
      invariant counts == Tally(GridTypes(analyze, grid[1..i]))
    {
      var out;
      out, counts := DeidentifyRow(analyze, anonymize, grid[i], counts);
      GridTypesStep(analyze, grid, i);
      AddAllAppend(Empty, GridTypes(analyze, grid[1..i]), RowTypes(analyze, grid[i]));
      ProcessRowsStep(analyze, anonymize, grid, i);
      lines := lines + [out];
      i := i + 1;
    }
    assert grid[1..i] == grid[1..];
    AddAllValid(Empty, GridTypes(analyze, grid[1..]));
    var report := BuildReport(counts);
    return Success(Output(lines, report));
  }
}
