/** `export_to_excel`: the rows appended to the single worksheet of a new workbook. */
module ExcelExport {
  import opened PyText
  import opened Report

  /** The cells passed to one `ws.append(...)` call. */
  type Row = seq<string>

  const SheetTitle: string := "Analysis Results"

  /** The active worksheet: its title and the rows appended so far. */
  class Worksheet {
    var title: string
    var rows: seq<Row>

    /** The worksheet of a fresh workbook is titled "Sheet" and has no rows. */
    constructor ()
      ensures title == "Sheet" && rows == []
    {
      title := "Sheet";
      rows := [];
    }

    /** `ws.append(row)`: adds `row` below the last row. */
    method Append(row: Row)
      modifies this
      ensures rows == old(rows) + [row]
      ensures title == old(title)
    {
      rows := rows + [row];
    }
  }

  /** One row per line, holding that line stripped; blank lines give a `[""]` row. */
  function LineRows(lines: seq<string>): (rows: seq<Row>)
    ensures |rows| == |lines|
    ensures forall i :: 0 <= i < |lines| ==> rows[i] == [Strip(lines[i])]
  {
    if lines == [] then [] else LineRows(lines[..|lines| - 1]) + [[Strip(lines[|lines| - 1])]]
  }

  /** The worksheet's rows for the lines of the two sections, in order: the first heading,
      the actionable lines, an empty separator row, the second heading, the risk lines. */
  function SheetRows(actionable: seq<string>, risk: seq<string>): seq<Row> {
    [[ActionableHeading]] + LineRows(actionable) + [[]] + [[RiskHeading]] + LineRows(risk)
  }

  /** Appends one row per line, stripped. */
  method AppendLines(ws: Worksheet, lines: seq<string>)
    modifies ws
    ensures ws.rows == old(ws.rows) + LineRows(lines)
    ensures ws.title == old(ws.title)
  {
    for i := 0 to |lines|
      invariant ws.rows == old(ws.rows) + LineRows(lines[..i])
      invariant ws.title == old(ws.title)
    {
      ws.Append([Strip(lines[i])]);
      assert lines[..i + 1][..i] == lines[..i];
    }
    assert lines[..|lines|] == lines;
  }

  /** `export_to_excel(actionable, risk_mitigation)`, up to the serialisation of the
      workbook: both sections are split on line feeds, as `split('\n')` does. */
  method ExportToExcel(actionable: string, risk: string) returns (ws: Worksheet)
    ensures fresh(ws)
    ensures ws.title == SheetTitle
    ensures ws.rows == SheetRows(Lines(actionable), Lines(risk))
  {
    ws := new Worksheet();
    ws.title := SheetTitle;
    ws.Append([ActionableHeading]);
    assert ws.rows == [[ActionableHeading]];
    AppendLines(ws, Lines(actionable));
    ws.Append([]);
    ws.Append([RiskHeading]);
    AppendLines(ws, Lines(risk));
  }

  /** Where every row of the sheet sits, in terms of the sections' rows. */
  lemma RowsAt(actionable: seq<string>, risk: seq<string>)
    ensures var rows, ra, rr := SheetRows(actionable, risk), LineRows(actionable), LineRows(risk);
      |rows| == 3 + |ra| + |rr| && rows[0] == [ActionableHeading] &&
      (forall i :: 0 <= i < |ra| ==> rows[1 + i] == ra[i]) &&
      rows[1 + |ra|] == [] && rows[2 + |ra|] == [RiskHeading] &&
      (forall j :: 0 <= j < |rr| ==> rows[3 + |ra| + j] == rr[j])
  {
  }

  /** Where every row sits: one row per line of each section, each holding its line
      stripped, around the headings and the empty separator. */
  lemma SheetLayout(actionable: seq<string>, risk: seq<string>)
    ensures var rows := SheetRows(actionable, risk);
      |rows| == 3 + |actionable| + |risk| &&
      rows[0] == [ActionableHeading] &&
      (forall i :: 0 <= i < |actionable| ==> rows[1 + i] == [Strip(actionable[i])]) &&
      rows[1 + |actionable|] == [] &&
      rows[2 + |actionable|] == [RiskHeading] &&
      (forall j :: 0 <= j < |risk| ==> rows[3 + |actionable| + j] == [Strip(risk[j])])
  {
    RowsAt(actionable, risk);
  }

  /** A text with k line feeds gives k + 1 rows, so an empty section still gives one `[""]`
      row and the sheet has 3 + (k + 1) + (m + 1) rows. */
  lemma SheetRowCount(actionable: string, risk: string)
    ensures |SheetRows(Lines(actionable), Lines(risk))| == 3 + (Count(actionable, '\n') + 1) + (Count(risk, '\n') + 1)
    ensures |LineRows(Lines(""))| == 1 && LineRows(Lines("")) == [[""]]
  {
    SheetLayout(Lines(actionable), Lines(risk));
    var e := Lines("");
    assert |e| == 1 && Join(e, "\n") == "";
    assert e[0] == "" by {
      JoinStartsWithFirst(e, "\n");
    }
    assert Strip("") == "";
    assert e[..0] == [];
  }

  /** A row of a section is `[""]` exactly when its line is blank: blank lines are never dropped. */
  lemma BlankLinesKept(actionable: seq<string>, risk: seq<string>)
    ensures var rows := SheetRows(actionable, risk);
      (forall i :: 0 <= i < |actionable| ==> (rows[1 + i] == [""] <==> IsBlank(actionable[i]))) &&
      (forall j :: 0 <= j < |risk| ==> (rows[3 + |actionable| + j] == [""] <==> IsBlank(risk[j])))
  {
    SheetLayout(actionable, risk);
  }

  /** The value in the first column of each row; a row with no cells reads as "". */
  function FirstColumn(rows: seq<Row>): (cells: seq<string>)
    ensures |cells| == |rows|
    ensures forall i :: 0 <= i < |rows| ==> cells[i] == if rows[i] == [] then "" else rows[i][0]
  {
    if rows == [] then [] else [if rows[0] == [] then "" else rows[0][0]] + FirstColumn(rows[1..])
  }

  /** The first column of the rows of already stripped lines is those lines. */
  lemma FirstColumnOfStrippedLines(lines: seq<string>)
    requires forall i :: 0 <= i < |lines| ==> Strip(lines[i]) == lines[i]
    ensures FirstColumn(LineRows(lines)) == lines
  {
  }

  /** The two sections sit at rows 1 .. na and from row na + 3 on. */
  lemma SectionSlices(ra: seq<Row>, rr: seq<Row>)
    ensures ([[ActionableHeading]] + ra + [[]] + [[RiskHeading]] + rr)[1..1 + |ra|] == ra
    ensures ([[ActionableHeading]] + ra + [[]] + [[RiskHeading]] + rr)[3 + |ra|..] == rr
  {
    var head := [[ActionableHeading]] + ra;
    assert head[1..] == ra;
  }

  /** Reading a section back: when no line of the two texts carries surrounding whitespace,
      joining each section's cells with line feeds gives back the text it came from. */
  lemma SheetRecoversText(actionable: string, risk: string)
    requires forall i :: 0 <= i < |Lines(actionable)| ==> Strip(Lines(actionable)[i]) == Lines(actionable)[i]
    requires forall j :: 0 <= j < |Lines(risk)| ==> Strip(Lines(risk)[j]) == Lines(risk)[j]
    ensures var rows, na := SheetRows(Lines(actionable), Lines(risk)), |Lines(actionable)|;
      Join(FirstColumn(rows[1..1 + na]), "\n") == actionable &&
      Join(FirstColumn(rows[3 + na..]), "\n") == risk
  {
    var la, lr := Lines(actionable), Lines(risk);
    SectionSlices(LineRows(la), LineRows(lr));
    FirstColumnOfStrippedLines(la);
    FirstColumnOfStrippedLines(lr);
  }

  /** The lines of the example texts. */
  lemma ExampleLines()
    ensures Lines("A\nB") == ["A", "B"] && Lines("C") == ["C"]
  {
    var empty := Split("", '\n');
    var b := Split("B", '\n');
    assert "B"[1..] == "";
    assert b == [['B'] + empty[0]] + empty[1..];
    assert b == ["B"];
    var nb := Split("\nB", '\n');
    assert "\nB"[1..] == "B";
    assert nb == [""] + b;
    var anb := Split("A\nB", '\n');
    assert "A\nB"[1..] == "\nB";
    assert anb == [['A'] + nb[0]] + nb[1..];
    assert nb[0] == "" && nb[1..] == ["B"];
    assert ['A'] + "" == "A";
    assert anb == ["A", "B"];
    var c := Split("C", '\n');
    assert "C"[1..] == "";
    assert c == [['C'] + empty[0]] + empty[1..];
    assert c == ["C"];
  }

  /** The example lines carry no whitespace. */
  lemma ExampleStrips()
    ensures Strip("A") == "A" && Strip("B") == "B" && Strip("C") == "C"
  {
    StripUnique("A", 0, 1);
    StripUnique("B", 0, 1);
    StripUnique("C", 0, 1);
  }

  /** The rows of the example lines. */
  lemma ExampleRows()
    ensures LineRows(["A", "B"]) == [["A"], ["B"]] && LineRows(["C"]) == [["C"]]
  {
    ExampleStrips();
    assert ["A", "B"][..1] == ["A"];
    assert ["A"][..0] == [];
    assert ["C"][..0] == [];
  }

  /** The example rows: actionable text "A\nB" and risk text "C". */
  lemma SheetExample()
    ensures SheetRows(Lines("A\nB"), Lines("C")) ==
      [["Actionable Items"], ["A"], ["B"], [], ["Risk Mitigations"], ["C"]]
  {
    ExampleLines();
    ExampleRows();
  }
}
