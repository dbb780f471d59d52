/** A worked example: one header row and one data row whose e-mail cell is
    reported as an EMAIL_ADDRESS covering the whole cell. */
module PipelineExample {
  import opened Text
  import opened EntityCounts
  import opened Report
  import opened Pipeline

  const Email: string := "alice@example.com"

  /** Finds the whole e-mail address as one EMAIL_ADDRESS and nothing in any
      other text. */
  function ExampleAnalyzer(s: string, language: string): seq<Detection> {
    if s == Email then [Detection("EMAIL_ADDRESS", 0, 17)] else []
  }

  /** Replaces the whole text: what the replace operator gives for a finding
      that spans all of it. */
  function WholeTextAnonymizer(s: string, results: seq<Detection>, replacement: string): string {
    replacement
  }

  lemma AliceNotBlank()
    ensures !IsBlank("Alice")
  {
  }

  lemma EmailNotBlank()
    ensures !IsBlank(Email)
  {
  }

  lemma EmailTitled()
    ensures TitleFrom("EMAIL", false) == "Email"
  {
    TitleFromAppend("EM", "AIL", false);
    assert "EM" + "AIL" == "EMAIL";
    assert TitleFrom("EM", false) == "Em";
    assert TitleFrom("AIL", true) == "ail";
  }

  lemma AddressTitled()
    ensures TitleFrom("ADDRESS", false) == "Address"
  {
    TitleFromAppend("ADD", "RESS", false);
    assert "ADD" + "RESS" == "ADDRESS";
    assert TitleFrom("ADD", false) == "Add";
    assert TitleFrom("RESS", true) == "ress";
  }

  lemma WordsUnchanged()
    ensures UnderscoresToSpaces("EMAIL") == "EMAIL"
    ensures UnderscoresToSpaces("ADDRESS") == "ADDRESS"
  {
    UnderscoreFreeUnchanged("EMAIL");
    UnderscoreFreeUnchanged("ADDRESS");
  }

  lemma EmailAddressParts()
    ensures "EMAIL_ADDRESS" == "EMAIL" + ("_" + "ADDRESS")
  {
  }

  lemma EmailAddressSpaced()
    ensures UnderscoresToSpaces("EMAIL_ADDRESS") == "EMAIL" + (" " + "ADDRESS")
  {
    WordsUnchanged();
    EmailAddressParts();
    UnderscoresToSpacesAppend("EMAIL", "_" + "ADDRESS");
    UnderscoresToSpacesAppend("_", "ADDRESS");
    assert UnderscoresToSpaces("_") == " ";
  }

  lemma EmailAddressTitled()
    ensures Title("EMAIL" + (" " + "ADDRESS")) == "Email Address"
  {
    EmailTitled();
    AddressTitled();
    TitleFromAppend("EMAIL", " " + "ADDRESS", false);
    TitleFromAppend(" ", "ADDRESS", true);
    assert TitleFrom(" ", true) == " ";
    assert "Email" + (" " + "Address") == "Email Address";
  }

  /** The report label of the EMAIL_ADDRESS entity type. */
  lemma EmailLabel()
    ensures FormatLabel("EMAIL_ADDRESS") == "Email Address"
  {
    EmailAddressSpaced();
    EmailAddressTitled();
  }

  lemma ExampleRow()
    ensures ProcessRow(ExampleAnalyzer, WholeTextAnonymizer, ["Alice", Email]) == ["Alice", "XXXXXX"]
    ensures RowTypes(ExampleAnalyzer, ["Alice", Email]) == ["EMAIL_ADDRESS"]
  {
    var row := ["Alice", Email];
    AliceNotBlank();
    EmailNotBlank();
    assert row[..1] == ["Alice"] && ["Alice"][..0] == [];
    assert ScanCell(ExampleAnalyzer, WholeTextAnonymizer, "Alice") == "Alice";
    assert ScanCell(ExampleAnalyzer, WholeTextAnonymizer, Email) == "XXXXXX";
    assert CellTypes(ExampleAnalyzer, "Alice") == [];
    assert EntityTypes([Detection("EMAIL_ADDRESS", 0, 17)]) == ["EMAIL_ADDRESS"];
    assert CellTypes(ExampleAnalyzer, Email) == ["EMAIL_ADDRESS"];
  }

  lemma ExampleTally()
    ensures Tally(["EMAIL_ADDRESS"]) == CountMap(["EMAIL_ADDRESS"], map["EMAIL_ADDRESS" := 1])
  {
  }

  lemma ExampleReport()
    ensures ReportText(Tally(["EMAIL_ADDRESS"])) == Header + ("Total " + "Email Address" + " found: " + "1" + "\n")
  {
    var d := Tally(["EMAIL_ADDRESS"]);
    ExampleTally();
    assert d.keys[..0] == [];
    assert LinesFor(d.keys, d) == Line("EMAIL_ADDRESS", 1);
    EmailLabel();
    assert NatToString(1) == "1";
  }

  lemma OneDataRow(analyze: Analyzer, anonymize: Anonymizer, header: seq<string>, row: seq<string>)
    ensures Deidentify(analyze, anonymize, [header, row])
         == Success(Output([header, ProcessRow(analyze, anonymize, row)], ReportText(Tally(RowTypes(analyze, row)))))
  {
    var grid := [header, row];
    assert grid[1..] == [row];
    assert [row][..0] == [];
    assert ProcessRows(analyze, anonymize, [row]) == [ProcessRow(analyze, anonymize, row)];
    assert GridTypes(analyze, [row]) == [] + RowTypes(analyze, row);
    assert [] + RowTypes(analyze, row) == RowTypes(analyze, row);
    assert [header] + [ProcessRow(analyze, anonymize, row)] == [header, ProcessRow(analyze, anonymize, row)];
  }

  /** The e-mail cell is masked, the name cell and the header are kept, and
      the report has the header and one line for the one e-mail address. */
  lemma EmailRowExample()
    ensures Deidentify(ExampleAnalyzer, WholeTextAnonymizer, [["name", "email"], ["Alice", Email]])
         == Success(Output([["name", "email"], ["Alice", "XXXXXX"]],
                           Header + ("Total " + "Email Address" + " found: " + "1" + "\n")))
  {
    OneDataRow(ExampleAnalyzer, WholeTextAnonymizer, ["name", "email"], ["Alice", Email]);
    ExampleRow();
    ExampleReport();
  }

  /** Input holding only a header row: the header is copied through and the
      report says that no PII was found, whatever the engines do. */
  lemma HeaderOnlyExample(analyze: Analyzer, anonymize: Anonymizer, header: seq<string>)
    ensures Deidentify(analyze, anonymize, [header]) == Success(Output([header], Header + NoPiiLine))
  {
    assert [header][1..] == [];
    assert Tally([]).count == map[];
    assert [header] + [] == [header];
  }
}
