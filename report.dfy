/**
  The summary report that `deidentify_data` builds from its entity counts:
  a fixed two-line header, then one line per entity type in the order the
  types were first detected, or a single line saying that nothing was found.
 */
module Report {
  import opened Text
  import opened EntityCounts

  const Header: string := "Summary Report\n--------------\n"
  const NoPiiLine: string := "No PII found in the provided data.\n"

  /** The line `f"Total {key.replace('_', ' ').title()} found: {count}\n"`. */
  function Line(key: string, count: nat): string {
    "Total " + FormatLabel(key) + " found: " + NatToString(count) + "\n"
  }

  /** The lines for `keys`, in order, with their counts in `d`. */
  function LinesFor(keys: seq<string>, d: CountMap): string {
    if keys == [] then ""
    else LinesFor(keys[..|keys| - 1], d) + Line(keys[|keys| - 1], Get(d, keys[|keys| - 1]))
  }

  /** The whole report text for the final counts. */
  function ReportText(d: CountMap): string {
    Header + (if d.count != map[] then LinesFor(d.keys, d) else NoPiiLine)
  }

  /** Builds the report by repeated concatenation, as the source does. */
  method BuildReport(d: CountMap) returns (report: string)
    requires Valid(d)
    ensures report == ReportText(d)
  {
    report := "Summary Report\n";
    report := report + "--------------\n";
    assert report == Header;
    if d.count != map[] {
      var i := 0;
      while i < |d.keys|
        invariant 0 <= i <= |d.keys|
        invariant report == Header + LinesFor(d.keys[..i], d)
      {
        var key := d.keys[i];
        var count := d.count[key];
        LinesForStep(d.keys, i, d);
        AppendAssoc(Header, LinesFor(d.keys[..i], d), Line(key, count));
        report := report + Line(key, count);
        i := i + 1;
      }
      assert d.keys[..i] == d.keys;
    } else {
      report := report + "No PII found in the provided data.\n";
    }
  }

  lemma LinesForStep(keys: seq<string>, i: nat, d: CountMap)
    requires i < |keys|
    ensures LinesFor(keys[..i + 1], d) == LinesFor(keys[..i], d) + Line(keys[i], Get(d, keys[i]))
  {
    assert keys[..i + 1][..i] == keys[..i];
  }

  /** Concatenation regrouped, for the step that appends one line. */
  lemma AppendAssoc(a: string, b: string, c: string)
    ensures (a + b) + c == a + (b + c)
  {
  }

  /** The concatenation of a sequence of lines. */
  function Concat(lines: seq<string>): string {
    if lines == [] then "" else lines[0] + Concat(lines[1..])
  }

  lemma {:induction false} ConcatAppend(lines: seq<string>, last: string)
    ensures Concat(lines + [last]) == Concat(lines) + last
  {
    if lines != [] {
      assert (lines + [last])[1..] == lines[1..] + [last];
      ConcatAppend(lines[1..], last);
    }
  }

  /** The report lines, one per key in insertion order, each naming its key
      and that key's count. */
  lemma {:induction false} LinesForIsOneLinePerKey(keys: seq<string>, d: CountMap) returns (lines: seq<string>)
    ensures |lines| == |keys|
    ensures forall i :: 0 <= i < |keys| ==> lines[i] == Line(keys[i], Get(d, keys[i]))
    ensures LinesFor(keys, d) == Concat(lines)
  {
    if keys == [] {
      lines := [];
    } else {
      var n := |keys| - 1;
      var front := LinesForIsOneLinePerKey(keys[..n], d);
      lines := front + [Line(keys[n], Get(d, keys[n]))];
      ConcatAppend(front, Line(keys[n], Get(d, keys[n])));
    }
  }

  /** A non-empty run of lines starts with the letter of "Total". */
  lemma {:induction false} LinesForStart(keys: seq<string>, d: CountMap)
    requires keys != []
    ensures |LinesFor(keys, d)| > 0 && LinesFor(keys, d)[0] == 'T'
  {
    if |keys| > 1 {
      LinesForStart(keys[..|keys| - 1], d);
    }
  }

  /** The report starts with the fixed header, and it is exactly the header
      and the "no PII" line if and only if no entity was counted. */
  lemma ReportNoPiiIff(d: CountMap)
    requires Valid(d)
    ensures ReportText(d)[..|Header|] == Header
    ensures ReportText(d) == Header + NoPiiLine <==> d.count == map[]
  {
    if d.count != map[] {
      var k :| k in d.count;
      assert d.keys != [];
      LinesForStart(d.keys, d);
      assert ReportText(d)[|Header|] == 'T';
    }
  }

  /** With at least one entity counted, the report is the header followed by
      exactly one line per key, in insertion order, each with that key's
      count. */
  lemma ReportListsEveryKey(d: CountMap) returns (lines: seq<string>)
    requires Valid(d) && d.count != map[]
    ensures |lines| == |d.keys|
    ensures forall i :: 0 <= i < |d.keys| ==> d.keys[i] in d.count && lines[i] == Line(d.keys[i], d.count[d.keys[i]])
    ensures ReportText(d) == Header + Concat(lines)
  {
    lines := LinesForIsOneLinePerKey(d.keys, d);
    forall i | 0 <= i < |d.keys| ensures d.keys[i] in d.count {
      assert d.keys[i] in d.keys;
    }
  }
}
