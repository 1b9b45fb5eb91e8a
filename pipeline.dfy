/** How the two scripts fit together: the CSV report written by the
    detector, read back by the PyMOL generator, highlights exactly the
    reported residues, one numbered pair of selections per bridge. */
module Pipeline {
  import opened Results
  import opened Text
  import opened Disulfide
  import opened Pymol

  /** The lines of a text file as iterating over the open file yields
      them: each written line followed by its newline. This holds for
      written lines that contain no line break of their own. */
  function FileLines(lines: seq<string>): seq<string>
  {
    seq(|lines|, i requires 0 <= i < |lines| => lines[i] + "\n")
  }

  /** The fields the PyMOL generator should read back for a bridge. */
  function RowOf(b: Bridge): Row
  {
    Row(b.0.chain, IntToString(b.0.resSeq), b.1.chain, IntToString(b.1.resSeq))
  }

  /** A chain id that stays inside one CSV field and one line. */
  predicate OneField(chain: string)
  {
    ',' !in chain && '\n' !in chain && '\r' !in chain
  }

  /** Chain ids the CSV carries through unchanged: no comma or line break
      inside, and no leading whitespace on the first one, which `strip`
      would remove. */
  predicate Writable(b: Bridge)
  {
    OneField(b.0.chain) && OneField(b.1.chain) && (b.0.chain == [] || !IsSpace(b.0.chain[0]))
  }

  /** A report row starts with the first chain id (or its comma) and
      ends with the last digit of the second residue number. */
  lemma RowEnds(b: Bridge)
    requires Writable(b)
    ensures var row := ReportRow(b);
      row != [] && !IsSpace(row[0]) && !IsSpace(row[|row| - 1])
  {
    var row := ReportRow(b);
    var r2 := IntToString(b.1.resSeq);
    var front := b.0.chain + "," + IntToString(b.0.resSeq) + "," + b.1.chain + ",";
    ReportRowText(b);
    assert row == front + r2;
    assert row[0] == front[0];
    assert front[0] == if b.0.chain == [] then ',' else b.0.chain[0];
    assert row[|row| - 1] == r2[|r2| - 1];
  }

  /** A report row, read back as a file line, unpacks into the chain ids
      and residue numbers of the bridge. */
  lemma ReportRowParses(b: Bridge)
    requires Writable(b)
    ensures ParseRow(ReportRow(b) + "\n") == Some(RowOf(b))
  {
    RowEnds(b);
    StripLine(ReportRow(b));
    ReportRowFields(b);
  }

  /** Why `Writable` asks for no leading whitespace: a blank first chain
      id, which PDB files allow, is written as " " but `strip` removes it,
      so the script selects chain "" instead. */
  lemma BlankChainLost(b: Bridge)
    requires b.0.chain == " " && b.0.resSeq == 5 && b.1.chain == "A" && b.1.resSeq == 9
    ensures ReportRow(b) == " ,5,A,9"
    ensures ParseRow(ReportRow(b) + "\n") == Some(Row("", "5", "A", "9"))
  {
    ReportRowText(b);
    assert IntToString(5) == "5" && IntToString(9) == "9";
    var line := " ,5,A,9\n";
    assert TrimStart(line) == TrimStart(line[1..]);
    assert line[1..] == ",5,A,9\n";
    var t := ",5,A,9\n";
    assert TrimStart(t) == t;
    assert TrimEnd(t) == TrimEnd(t[..|t| - 1]);
    assert t[..|t| - 1] == ",5,A,9";
    assert TrimEnd(",5,A,9") == ",5,A,9";
    assert Strip(line) == ",5,A,9";
    assert ",5,A,9" == "" + [','] + "5,A,9";
    assert "5,A,9" == "5" + [','] + "A,9";
    assert "A,9" == "A" + [','] + "9";
    SplitAfterField("", ',', "5,A,9");
    SplitAfterField("5", ',', "A,9");
    SplitAfterField("A", ',', "9");
    SplitWithoutSeparator("9", ',');
    assert Split(",5,A,9", ',') == ["", "5", "A", "9"];
    assert ReportRow(b) + "\n" == line;
  }

  /** Every bridge of a report with writable chain ids becomes, in report
      order, the four script lines numbered by its position (from 1) that
      select and highlight its two residues; the script loads the
      structure first and ends with `zoom`. */
  lemma ReportDrivesScript(pdb: string, bridges: seq<Bridge>)
    requires forall i :: 0 <= i < |bridges| ==> Writable(bridges[i])
    ensures var w := Script(pdb, FileLines(ReportLines(bridges)));
      && w.failedRow == None
      && |w.lines| == 4 + 4 * |bridges| + 1
      && w.lines[..4] == Preamble(pdb)
      && w.lines[4 + 4 * |bridges|] == "zoom"
      && forall i :: 0 <= i < |bridges| ==>
           w.lines[4 + 4 * i .. 8 + 4 * i] == RowLines(i + 1, RowOf(bridges[i]))
  {
    var csv := FileLines(ReportLines(bridges));
    var rows := DataRows(csv);
    var parsed := Parsed(rows);
    assert |rows| == |bridges|;
    forall i | 0 <= i < |bridges|
      ensures parsed[i] == Some(RowOf(bridges[i]))
    {
      assert rows[i] == ReportRow(bridges[i]) + "\n";
      ParsedAt(rows, i);
      ReportRowParses(bridges[i]);
    }
    ScriptComplete(pdb, csv);
  }
}
