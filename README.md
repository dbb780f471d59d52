# PII de-identification of CSV data, modelled in Dafny

This project models `deidentify_data` of `app.py`, the core of a small web
service that removes personally identifiable information (PII) from CSV
data. The function reads the CSV text and copies the first row (the header)
through unchanged. For every other row it copies the row and then looks at
each cell in turn:

- a cell that is empty or only whitespace (`cell.strip() == ""`) is left as it is;
- any other cell is given to the Presidio analyzer in English;
- when the analyzer returns findings, the cell becomes the anonymizer's text, produced with the single replace operator whose replacement is `XXXXXX`;
- every finding is counted under its entity type, in a dict that keeps the order in which types were first seen.

The output rows are written back as CSV. Beside them the function returns a
summary report. The report has a fixed two-line header. After it comes one
line `Total <Label> found: <n>` per entity type, in first-seen order, where
the label is the type with underscores turned into spaces and then
title-cased. When nothing was counted, the single line
`No PII found in the provided data.` comes instead.

The model:

- `text.dfy` (`Text`): `str.strip()` with Python's exact whitespace set, the blank-cell test, `str.replace('_', ' ')`, `str.title()` for ASCII letters, and the decimal rendering of a count.
- `counts.dfy` (`EntityCounts`): the count dict as a map together with its keys in insertion order, the `d.get(k, 0) + 1` update, and what a run of updates adds up to.
- `report.dfy` (`Report`): the report text as a function, and the report-building loop as a method proved against it.
- `pipeline.dfy` (`Pipeline`): the whole function. `Deidentify` is its specification; the nested loops are the methods `DeidentifyData`, `DeidentifyRow`, `DeidentifyCell` and `CountResults`, each proved to compute that specification.
- `properties.dfy` (`PipelineProperties`): what holds for every analyzer and anonymizer. This covers the outcome of each cell, counts that equal the findings, blank cells never reaching the analyzer, and when the report says that no PII was found.
- `example.dfy` (`PipelineExample`): two scenarios. In the first, the row `Alice,alice@example.com` has its e-mail cell masked and gives the report line `Total Email Address found: 1`. In the second, input that is only a header row comes back unchanged with the "no PII" report.

The analyzer and the anonymizer are parameters of every operation. The
analyzer is a function from a text and a language to a sequence of
detections. The anonymizer is a function from a text, its detections and
the replacement text to a new text. Nothing is assumed about either, so
every property holds for every detector and masking engine. The input is
the grid of rows that `csv.reader` yields, and the output is the grid
handed to `csv.writer` together with the report. Input with no row at all
makes `next(reader)` raise, and is modelled as `Failure(MissingHeader)`.

## Model

| member | source | states |
|---|---|---|
| Pipeline.DeidentifyData | app.py:13-64 | The whole function, written as its loops over rows and cells, returns exactly `Deidentify`: failure when there is no header row, otherwise the header, each processed data row, and the report of the final counts |
| Pipeline.Deidentify | app.py:21-49 | Fails exactly when the input has no row. Otherwise the output has as many rows as the input, the first row is the input header unchanged, and every output row has as many cells as its input row |
| Pipeline.DeidentifyRow | app.py:27-49 | One data row: a copy of the row with each cell overwritten in place by its processed text, and the counts increased by the row's findings, cell by cell from left to right |
| Pipeline.DeidentifyCell | app.py:28-47 | One cell: a blank cell is skipped and adds nothing. Otherwise the cell is analysed in English; with findings, it becomes the anonymizer's text for the original cell with the replacement `XXXXXX`, and each finding is counted. Without findings, the cell is unchanged and nothing is counted |
| Pipeline.CountResults | app.py:45-47 | The counting loop adds one to the count of each result's entity type, in result order |
| Pipeline.EntityTypes | app.py:45-46 | One entity type per analyzer result, the i-th being the i-th result's type |
| Pipeline.ProcessRow | app.py:27-42 | A processed row has its input's length, and each cell is processed independently of the others |
| Pipeline.ProcessRows | app.py:26-49 | One processed row per data row, in order |
| PipelineProperties.DataCellOutcome | app.py:28-42 | For every data cell: a cell of whitespace only is unchanged. A non-blank cell with findings becomes the anonymizer's text for the unstripped cell and all its findings. A cell that changed was non-blank and had findings |
| PipelineProperties.CountsAreFindings | app.py:45-57 | The report the pipeline returns is rendered from the final dict. That dict is well formed. Each type's count is the number of analyzer results of that type over the non-blank data cells, duplicates included. A type is a key exactly when it has at least one finding. The counts sum to the total number of findings |
| PipelineProperties.GridTypesOccurrences | app.py:26-47 | Each entity type occurs among the counted types exactly as often as the analyzer reports it over the non-blank cells of the data rows |
| PipelineProperties.GridTypesLength | app.py:26-47 | The number of counted types is the number of findings over the non-blank cells |
| PipelineProperties.AnalyzerSeesOnlyNonBlankCells | app.py:23-33 | Two analyzers that agree on the non-blank cells of the data rows give identical output and report, however they differ on blank cells, on the header row and on any other text. So neither a blank cell nor a header cell ever reaches the analyzer |
| PipelineProperties.FindingsZero | app.py:33-35 | There are no findings at all exactly when the analyzer returns nothing for every non-blank data cell |
| PipelineProperties.NothingFoundKeepsRows | app.py:26-49 | When the analyzer finds nothing in any non-blank cell, every data row is copied through unchanged |
| PipelineProperties.NoPiiReportIffNothingFound | app.py:51-57 | The report is the header plus the "no PII" line exactly when nothing is found in any non-blank data cell |
| PipelineProperties.NoFindingsIff | app.py:23-57 | For input with a header: the report says that no PII was found exactly when nothing is found, and then the output rows equal the input rows |
| Report.BuildReport | app.py:51-57 | The report built by repeated concatenation equals `ReportText`: the header, then one line per key in insertion order, or the "no PII" line when the dict is empty |
| Report.ReportNoPiiIff | app.py:51-57 | Every report starts with the two-line header. It is exactly the header plus the "no PII" line if and only if no entity type was counted |
| Report.ReportListsEveryKey | app.py:53-55 | With at least one type counted, the report is the header followed by exactly one line per key, in insertion order. Each line is `Total <label> found: <count>` for that key and its count |
| Report.LinesForIsOneLinePerKey | app.py:54-55 | The lines for a list of keys are the concatenation of one line per key, each with that key's count |
| Report.LinesForStart | app.py:54-55 | A non-empty run of report lines starts with the `T` of `Total`, so it never begins like the "no PII" line |
| EntityCounts.Increment | app.py:47 | `d[k] = d.get(k, 0) + 1` raises k's count by one and leaves every other count unchanged. A new key is appended after all existing keys, and an existing key keeps its place |
| EntityCounts.IncrementValid | app.py:47 | An update keeps the dict well formed: keys listed once, listed keys equal map keys, every count at least one |
| EntityCounts.AddAllValid | app.py:45-47 | Any run of updates keeps the dict well formed |
| EntityCounts.IncrementTotal | app.py:47 | Each update raises the sum of all counts by exactly one |
| EntityCounts.AddAllTotal | app.py:45-47 | A run of updates raises the sum of all counts by the number of updates |
| EntityCounts.AddAllAppend | app.py:45-47 | Counting two runs one after the other is counting their concatenation |
| EntityCounts.AddAllGet | app.py:45-47 | After a run of updates, each key's count has grown by the number of times the key occurs in the run |
| EntityCounts.AddAllGrows | app.py:45-47 | Updates only append keys, keep the earlier keys in their order, and never lower a count |
| EntityCounts.TallyIsExact | app.py:19-47 | Counting from the empty dict gives a well-formed dict. Each count is the type's number of occurrences, the keys are exactly the types that occur, and the counts sum to the number of updates |
| Text.TrimStartSpec | app.py:29 | Leading-whitespace removal drops an all-whitespace prefix and keeps a suffix that does not start with whitespace |
| Text.TrimEndSpec | app.py:29 | Trailing-whitespace removal drops an all-whitespace suffix and keeps a prefix that does not end with whitespace |
| Text.StripIsTrimmedSlice | app.py:29 | `strip()` keeps a contiguous slice that neither starts nor ends with whitespace, and everything it removes on either side is whitespace |
| Text.BlankIffAllSpace | app.py:29 | `cell.strip() == ""` holds exactly when every character of the cell is whitespace, the empty cell included |
| Text.TitleFromSpec | app.py:55 | Title-casing keeps every character up to case and keeps characters without case. A letter is upper-case in the result exactly when it starts a word |
| Text.TitleFromIdempotent | app.py:55 | Title-casing a title-cased text changes nothing |
| Text.TitleFromAppend | app.py:55 | Title-casing a concatenation title-cases its second part as starting a word exactly when the first part does not end in a letter |
| Text.UnderscoresToSpaces | app.py:55 | `replace('_', ' ')` keeps the length |
| Text.UnderscoresToSpacesAt | app.py:55 | Every underscore becomes a space and every other character is kept |
| Text.UnderscoreFreeUnchanged | app.py:55 | `replace('_', ' ')` leaves a text without underscores unchanged |
| Text.UnderscoresToSpacesAppend | app.py:55 | Underscore replacement works on each part of a concatenation separately |
| Text.FormatLabelSpec | app.py:55 | An entity type's label has the type's length and contains no underscore. Each underscore is a space and every other character is the type's, up to case. The label is already title-cased |
| Text.NatToString | app.py:55 | A count renders as a non-empty string of decimal digits with no leading zero |
| Text.NatToStringRoundTrip | app.py:55 | Reading the rendered count back as a decimal number gives the count |
| PipelineExample.EmailLabel | app.py:55 | The entity type `EMAIL_ADDRESS` is labelled `Email Address` |
| PipelineExample.OneDataRow | app.py:23-57 | Input of a header and one data row gives the header, the processed row, and the report of that row's findings |
| PipelineExample.EmailRowExample | app.py:13-57 | For `name,email` / `Alice,alice@example.com`, with an analyzer that finds the e-mail address, the header and the name are kept, the e-mail cell becomes `XXXXXX`, and the report is the header plus `Total Email Address found: 1` |
| PipelineExample.HeaderOnlyExample | app.py:23-57 | Input that is only a header row gives that row back and the "no PII" report, whatever the engines do |

## Left out

- The Flask application (app.py:66-272): routes, request handling, the HTML template and file download are I/O around the core.
- The UTF-8 decoding of the uploaded file happens in the web layer and is not modelled.
- CSV parsing and writing (app.py:21-22, 59-62): quoting, escaping and line endings of `csv.reader` and `csv.writer` are not modelled. The model starts from the parsed rows and ends with the rows handed to the writer. So "output equals input" is stated for rows, not for CSV text.
- The Presidio engines (app.py:10-11, 33, 37-41): recognisers, scores, overlapping spans and the replace operator's handling of spans are inside the engines. They are function parameters here and nothing is assumed about them. A detection carries its entity type and span; its score is left out because the core never reads it.
- Exceptions raised by the analyzer or anonymizer are not modelled; the engines are total functions here.
- The module-level engine instances (app.py:10-11) and concurrent requests are not modelled. Each call is a pure function of its input and the two engines.
- Text.TitleFrom: title-cases ASCII letters only. Any other character counts as having no case, whereas Python's `str.title()` also changes non-ASCII letters. Entity types of the detector are ASCII upper-case with underscores.
- PipelineProperties.DataCellOutcome: states that a cell changes only if it is non-blank with findings, not that every such cell changes. With findings the cell gets whatever text the anonymizer returns, and that text may equal the input.
