/** The PyMOL script generator of generar_pymol.py: a fixed preamble, four
    lines per CSV data row numbered by a counter from 1, then `zoom`. */
module Pymol {
  import opened Results
  import opened Text

  /** The script's file name: the structure path without its last four
      characters, plus ".pml". */
  function PmlFileName(pdb: string): string
  {
    DropLastFour(pdb) + ".pml"
  }

  function Preamble(pdb: string): seq<string>
  {
    ["load " + pdb, "hide everything", "show cartoon", "color palecyan, all"]
  }

  /** The four fields of one CSV data row, as text. */
  datatype Row = Row(chain1: string, res1: string, chain2: string, res2: string)

  /** `cadena1, residuo1, cadena2, residuo2 = line.strip().split(',')`,
      which fails unless the line has exactly four fields. */
  function ParseRow(line: string): Option<Row>
  {
    var f := Split(Strip(line), ',');
    if |f| == 4 then Some(Row(f[0], f[1], f[2], f[3])) else None
  }

  function Selection(res: string, chain: string): string
  {
    "resi " + res + " and chain " + chain + " and name SG"
  }

  /** The four script lines of the data row numbered k. */
  function RowLines(k: nat, row: Row): (r: seq<string>)
    ensures |r| == 4
  {
    var n := NatToString(k);
    [ "select puente" + n + "_1, " + Selection(row.res1, row.chain1),
      "select puente" + n + "_2, " + Selection(row.res2, row.chain2),
      "show spheres, puente" + n + "_1 or puente" + n + "_2",
      "color yellow, puente" + n + "_1 or puente" + n + "_2" ]
  }

  /** What the generator wrote, and the number of the data row whose
      unpacking failed, if one did (the script then stops there). */
  datatype Written = Written(lines: seq<string>, failedRow: Option<nat>)

  /** What is written for the data rows `rows`, parsed, the first numbered k. */
  function Body(rows: seq<Option<Row>>, k: nat): Written
    decreases |rows|
  {
    if rows == [] then Written(["zoom"], None)
    else match rows[0]
      case None => Written([], Some(k))
      case Some(row) =>
        var rest := Body(rows[1..], k + 1);
        Written(RowLines(k, row) + rest.lines, rest.failedRow)
  }

  /** Each data row, unpacked into its four fields or not. */
  function Parsed(rows: seq<string>): (r: seq<Option<Row>>)
    ensures |r| == |rows|
  {
    if rows == [] then [] else [ParseRow(rows[0])] + Parsed(rows[1..])
  }

  lemma {:induction false} ParsedAt(rows: seq<string>, i: nat)
    requires i < |rows|
    ensures Parsed(rows)[i] == ParseRow(rows[i])
  {
    var head := ParseRow(rows[0]);
    assert Parsed(rows) == [head] + Parsed(rows[1..]);
    if i > 0 {
      ParsedAt(rows[1..], i - 1);
      assert rows[1..][i - 1] == rows[i];
    }
  }

  lemma BodyStep(rows: seq<Option<Row>>, i: nat, k: nat)
    requires i < |rows|
    ensures Body(rows[i..], k) == match rows[i]
      case None => Written([], Some(k))
      case Some(row) =>
        Written(RowLines(k, row) + Body(rows[i + 1..], k + 1).lines, Body(rows[i + 1..], k + 1).failedRow)
  {
    assert rows[i..][0] == rows[i];
    assert rows[i..][1..] == rows[i + 1..];
  }

  /** The lines after the header, which `readline` consumes. */
  function DataRows(csv: seq<string>): seq<string>
  {
    if csv == [] then [] else csv[1..]
  }

  /** The whole script for the structure path `pdb` and the lines of the CSV file. */
  function Script(pdb: string, csv: seq<string>): Written
  {
    var body := Body(Parsed(DataRows(csv)), 1);
    Written(Preamble(pdb) + body.lines, body.failedRow)
  }

  lemma AppendFour(s: seq<string>, a: string, b: string, c: string, d: string)
    ensures s + [a] + [b] + [c] + [d] == s + [a, b, c, d]
  {
  }

  /** After writing the lines of a well-formed row, what remains to be
      written is the body of the rows after it. */
  lemma RowWritten(rows: seq<Option<Row>>, i: nat, k: nat, written: seq<string>, row: Row)
    requires i < |rows| && rows[i] == Some(row)
    ensures written + Body(rows[i..], k).lines == (written + RowLines(k, row)) + Body(rows[i + 1..], k + 1).lines
    ensures Body(rows[i..], k).failedRow == Body(rows[i + 1..], k + 1).failedRow
  {
    BodyStep(rows, i, k);
  }

  /** `generar_pml`: the output file name, the lines written to it and the
      data row at which unpacking failed, if any. */
  method GeneratePml(pdb: string, csv: seq<string>) returns (output: string, lines: seq<string>, failedRow: Option<nat>)
    ensures output == PmlFileName(pdb)
    ensures Written(lines, failedRow) == Script(pdb, csv)
  {
    output := DropLastFour(pdb) + ".pml";
    AppendFour([], "load " + pdb, "hide everything", "show cartoon", "color palecyan, all");
    lines := ["load " + pdb];
    lines := lines + ["hide everything"];
    lines := lines + ["show cartoon"];
    lines := lines + ["color palecyan, all"];
    failedRow := None;
    var rows := DataRows(csv);
    ghost var parsed := Parsed(rows);
    var index := 1;
    for i := 0 to |rows|
      invariant index == i + 1
      invariant Preamble(pdb) + Body(parsed, 1).lines == lines + Body(parsed[i..], index).lines
      invariant Body(parsed, 1).failedRow == Body(parsed[i..], index).failedRow
    {
      ParsedAt(rows, i);
      var fields := Split(Strip(rows[i]), ',');
      if |fields| != 4 {
        BodyStep(parsed, i, index);
        failedRow := Some(index);
        return;
      }
      var cadena1, residuo1, cadena2, residuo2 := fields[0], fields[1], fields[2], fields[3];
      var sele1 := Selection(residuo1, cadena1);
      var sele2 := Selection(residuo2, cadena2);
      var n := NatToString(index);
      var line1 := "select puente" + n + "_1, " + sele1;
      var line2 := "select puente" + n + "_2, " + sele2;
      var line3 := "show spheres, puente" + n + "_1 or puente" + n + "_2";
      var line4 := "color yellow, puente" + n + "_1 or puente" + n + "_2";
      ghost var row := Row(cadena1, residuo1, cadena2, residuo2);
      assert ParseRow(rows[i]) == Some(row);
      assert lines + [line1] + [line2] + [line3] + [line4] == lines + RowLines(index, row) by {
        AppendFour(lines, line1, line2, line3, line4);
      }
      RowWritten(parsed, i, index, lines, row);
      lines := lines + [line1];
      lines := lines + [line2];
      lines := lines + [line3];
      lines := lines + [line4];
      index := index + 1;
    }
    lines := lines + ["zoom"];
  }

  predicate AllParsed(rows: seq<Option<Row>>)
  {
    forall i :: 0 <= i < |rows| ==> rows[i].Some?
  }

  lemma SliceOfAppend(a: seq<string>, b: seq<string>, lo: int, hi: int)
    requires |a| <= lo <= hi <= |a| + |b|
    ensures (a + b)[lo..hi] == b[lo - |a| .. hi - |a|]
  {
  }

  /** The rows after a well-formed first row are all well-formed too. */
  lemma RestParsed(rows: seq<Option<Row>>)
    requires AllParsed(rows) && rows != []
    ensures rows[0].Some? && AllParsed(rows[1..])
  {
    forall i | 0 <= i < |rows| - 1 ensures rows[1..][i].Some? {
      assert rows[1..][i] == rows[i + 1];
    }
  }

  lemma BodyHead(rows: seq<Option<Row>>, k: nat)
    requires rows != [] && rows[0].Some?
    ensures Body(rows, k).lines == RowLines(k, rows[0].value) + Body(rows[1..], k + 1).lines
    ensures Body(rows, k).failedRow == Body(rows[1..], k + 1).failedRow
  {
  }

  lemma {:induction false} BodyComplete(rows: seq<Option<Row>>, k: nat)
    requires AllParsed(rows)
    decreases |rows|
    ensures Body(rows, k).failedRow == None
    ensures |Body(rows, k).lines| == 4 * |rows| + 1 && Body(rows, k).lines[4 * |rows|] == "zoom"
  {
    if rows != [] {
      RestParsed(rows);
      BodyComplete(rows[1..], k + 1);
      BodyHead(rows, k);
    }
  }

  /** The data row at position i (numbered k + i) is written as its four
      lines, starting at line 4 * i of the body, provided it and every row
      before it have four fields. */
  lemma {:induction false} BodyBlockAt(rows: seq<Option<Row>>, k: nat, i: nat)
    requires i < |rows| && forall j :: 0 <= j <= i ==> rows[j].Some?
    decreases i
    ensures |Body(rows, k).lines| >= 4 * i + 4
    ensures Body(rows, k).lines[4 * i .. 4 * i + 4] == RowLines(k + i, rows[i].value)
  {
    assert rows[0].Some?;
    BodyHead(rows, k);
    var block := RowLines(k, rows[0].value);
    var tail := Body(rows[1..], k + 1).lines;
    if i == 0 {
      assert (block + tail)[..4] == block;
    } else {
      forall j | 0 <= j <= i - 1 ensures rows[1..][j].Some? {
        assert rows[1..][j] == rows[j + 1];
      }
      BodyBlockAt(rows[1..], k + 1, i - 1);
      assert rows[1..][i - 1] == rows[i];
      assert k + 1 + (i - 1) == k + i;
      SliceOfAppend(block, tail, 4 * i, 4 * i + 4);
    }
  }

  /** None of the four lines of a data row is `zoom`. */
  lemma RowLinesNotZoom(k: nat, row: Row)
    ensures "zoom" !in RowLines(k, row)
  {
    var n := NatToString(k);
    var r := RowLines(k, row);
    assert r[0] == "select puente" + n + "_1, " + Selection(row.res1, row.chain1);
    assert r[0][0] == 's';
    assert r[1] == "select puente" + n + "_2, " + Selection(row.res2, row.chain2);
    assert r[1][0] == 's';
    assert r[2] == "show spheres, puente" + n + "_1 or puente" + n + "_2";
    assert r[2][0] == 's';
    assert r[3] == "color yellow, puente" + n + "_1 or puente" + n + "_2";
    assert r[3][0] == 'c';
  }

  /** A body that stops at a malformed row never writes `zoom`. */
  lemma {:induction false} FailureNoZoom(rows: seq<Option<Row>>, k: nat)
    decreases |rows|
    ensures Body(rows, k).failedRow.Some? ==> "zoom" !in Body(rows, k).lines
  {
    if rows != [] && rows[0].Some? {
      FailureNoZoom(rows[1..], k + 1);
      BodyHead(rows, k);
      RowLinesNotZoom(k, rows[0].value);
    }
  }

  lemma {:induction false} BodyFailure(rows: seq<Option<Row>>, k: nat)
    decreases |rows|
    ensures Body(rows, k).failedRow.None? <==> AllParsed(rows)
    ensures Body(rows, k).failedRow.Some? ==>
      var f := Body(rows, k).failedRow.value;
      k <= f < k + |rows| && rows[f - k].None?
      && (forall j :: 0 <= j < f - k ==> rows[j].Some?)
      && |Body(rows, k).lines| == 4 * (f - k)
  {
    if rows != [] {
      var rest := rows[1..];
      BodyFailure(rest, k + 1);
      assert forall j :: 0 <= j < |rest| ==> rest[j] == rows[j + 1];
      if rows[0].Some? {
        assert AllParsed(rows) <==> AllParsed(rest) by {
          if AllParsed(rest) {
            forall j | 0 <= j < |rows| ensures rows[j].Some? {
              if j > 0 { assert rows[j] == rest[j - 1]; }
            }
          }
        }
      }
    }
  }

  lemma AfterPreamble(preamble: seq<string>, rows: seq<Option<Row>>)
    requires |preamble| == 4 && AllParsed(rows)
    ensures var lines := preamble + Body(rows, 1).lines;
      && |lines| == 4 + 4 * |rows| + 1
      && lines[..4] == preamble
      && lines[4 + 4 * |rows|] == "zoom"
      && forall i :: 0 <= i < |rows| ==> lines[4 + 4 * i .. 8 + 4 * i] == RowLines(i + 1, rows[i].value)
  {
    BodyComplete(rows, 1);
    forall i | 0 <= i < |rows|
      ensures (preamble + Body(rows, 1).lines)[4 + 4 * i .. 8 + 4 * i] == RowLines(i + 1, rows[i].value)
    {
      BlockAfterPreamble(preamble, rows, i);
    }
  }

  lemma BlockAfterPreamble(preamble: seq<string>, rows: seq<Option<Row>>, i: nat)
    requires |preamble| == 4 && AllParsed(rows) && i < |rows|
    ensures |preamble + Body(rows, 1).lines| >= 8 + 4 * i
    ensures (preamble + Body(rows, 1).lines)[4 + 4 * i .. 8 + 4 * i] == RowLines(i + 1, rows[i].value)
  {
    var body := Body(rows, 1).lines;
    BodyBlockAt(rows, 1, i);
    SliceOfAppend(preamble, body, 4 + 4 * i, 8 + 4 * i);
  }

  /** When every data row has four fields: the preamble, four lines per
      row in order, the row numbered i (from 1) naming `puente{i}_1` and
      `puente{i}_2`, then `zoom`; 4 + 4 * rows + 1 lines in all. */
  lemma ScriptComplete(pdb: string, csv: seq<string>)
    requires AllParsed(Parsed(DataRows(csv)))
    ensures var w := Script(pdb, csv); var rows := Parsed(DataRows(csv));
      && w.failedRow == None
      && |w.lines| == 4 + 4 * |rows| + 1
      && w.lines[..4] == Preamble(pdb)
      && w.lines[4 + 4 * |rows|] == "zoom"
      && forall i :: 0 <= i < |rows| ==>
           w.lines[4 + 4 * i .. 8 + 4 * i] == RowLines(i + 1, rows[i].value)
  {
    var rows := Parsed(DataRows(csv));
    BodyComplete(rows, 1);
    AfterPreamble(Preamble(pdb), rows);
    assert Script(pdb, csv) == Written(Preamble(pdb) + Body(rows, 1).lines, Body(rows, 1).failedRow);
  }

  /** The script fails exactly when some data row does not have four
      fields; it then stops at the first such row, numbered f, after the
      preamble and the four lines of each row before it, without `zoom`. */
  lemma ScriptFailure(pdb: string, csv: seq<string>)
    ensures Script(pdb, csv).failedRow.None? <==> AllParsed(Parsed(DataRows(csv)))
    ensures Script(pdb, csv).failedRow.Some? ==>
      var f := Script(pdb, csv).failedRow.value; var rows := Parsed(DataRows(csv));
      var lines := Script(pdb, csv).lines;
      1 <= f <= |rows| && rows[f - 1].None?
      && (forall j :: 0 <= j < f - 1 ==> rows[j].Some?)
      && |lines| == 4 * f
      && lines[..4] == Preamble(pdb)
      && (forall j :: 0 <= j < f - 1 ==> lines[4 + 4 * j .. 8 + 4 * j] == RowLines(j + 1, rows[j].value))
      && "zoom" !in lines
  {
    var rows := Parsed(DataRows(csv));
    var body := Body(rows, 1);
    BodyFailure(rows, 1);
    FailureNoZoom(rows, 1);
    assert Script(pdb, csv) == Written(Preamble(pdb) + body.lines, body.failedRow);
    if body.failedRow.Some? {
      var f := body.failedRow.value;
      forall j | 0 <= j < f - 1
        ensures (Preamble(pdb) + body.lines)[4 + 4 * j .. 8 + 4 * j] == RowLines(j + 1, rows[j].value)
      {
        BlockBeforeFailure(Preamble(pdb), rows, f, j);
      }
    }
  }

  lemma BlockBeforeFailure(preamble: seq<string>, rows: seq<Option<Row>>, f: nat, j: nat)
    requires |preamble| == 4 && j + 1 < f <= |rows|
    requires forall i :: 0 <= i < f - 1 ==> rows[i].Some?
    ensures |preamble + Body(rows, 1).lines| >= 8 + 4 * j
    ensures (preamble + Body(rows, 1).lines)[4 + 4 * j .. 8 + 4 * j] == RowLines(j + 1, rows[j].value)
  {
    BodyBlockAt(rows, 1, j);
    SliceOfAppend(preamble, Body(rows, 1).lines, 4 + 4 * j, 8 + 4 * j);
  }

  /** The header line is read and thrown away: its text does not matter. */
  lemma HeaderIgnored(pdb: string, header1: string, header2: string, rows: seq<string>)
    ensures Script(pdb, [header1] + rows) == Script(pdb, [header2] + rows)
  {
    assert DataRows([header1] + rows) == rows == DataRows([header2] + rows);
  }

  lemma CharAfter(n: string, t: string)
    requires |t| > 0
    ensures (n + t)[|n|] == t[0]
  {
  }

  /** A run of digits followed by '_' can be read back unambiguously. */
  lemma DigitsBeforeUnderscore(n1: string, t1: string, n2: string, t2: string)
    requires forall i :: 0 <= i < |n1| ==> IsDigit(n1[i])
    requires forall i :: 0 <= i < |n2| ==> IsDigit(n2[i])
    requires |t1| > 0 && t1[0] == '_' && |t2| > 0 && t2[0] == '_'
    requires n1 + t1 == n2 + t2
    ensures n1 == n2
  {
    if |n1| < |n2| {
      CharAfter(n1, t1);
      assert false;
    } else if |n2| < |n1| {
      CharAfter(n2, t2);
      assert false;
    } else {
      assert n1 == (n1 + t1)[..|n1|] && n2 == (n2 + t2)[..|n2|];
    }
  }

  /** Rows with different numbers get different selection names, so the
      `show spheres` line of one row never repeats that of another. */
  lemma RowNamesDistinct(k1: nat, k2: nat, r1: Row, r2: Row)
    requires k1 != k2
    ensures RowLines(k1, r1)[2] != RowLines(k2, r2)[2]
  {
    if RowLines(k1, r1)[2] == RowLines(k2, r2)[2] {
      var n1, n2 := NatToString(k1), NatToString(k2);
      var t1, t2 := "_1 or puente" + n1 + "_2", "_1 or puente" + n2 + "_2";
      ShowLine(k1, r1);
      ShowLine(k2, r2);
      DigitsBeforeUnderscore(n1, t1, n2, t2);
      NatToStringInjective(k1, k2);
    }
  }

  /** Past its fixed prefix, the `show spheres` line is the row number
      followed by text starting with '_'. */
  lemma ShowLine(k: nat, r: Row)
    ensures var n := NatToString(k);
      RowLines(k, r)[2][|"show spheres, puente"|..] == n + ("_1 or puente" + n + "_2")
  {
    var n := NatToString(k);
    var p := "show spheres, puente";
    assert RowLines(k, r)[2] == p + (n + ("_1 or puente" + n + "_2"));
  }
}
