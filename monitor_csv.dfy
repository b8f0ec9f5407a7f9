/**
 * The monitor page's CSV export: a header line, then one line per shown
 * summary, cells joined by ',' with no quoting and lines joined by '\n' with
 * no trailing newline.
 */
module MonitorCsv {
  import opened Monitor
  import Text

  /** The column titles, in column order. */
  const Header: seq<string> := ["Name", "ID", "Exams", "Avg", "Pass", "Fail", "Last Date"]

  /**
   * One summary's cells in column order. Integer counts are rendered as
   * `String(n)` does; `avgText` renders the (rounded) average.
   */
  function Cells(s: TraineeSummary, avgText: real -> string): seq<string> {
    [s.traineeName, s.traineeId, Text.IntToString(s.exams), avgText(s.avg),
     Text.IntToString(s.pass), Text.IntToString(s.fail), s.lastDate]
  }

  function Row(s: TraineeSummary, avgText: real -> string): string {
    Text.Join(Cells(s, avgText), ',')
  }

  /** The lines of the file: the header, then one row per summary in order. */
  function Lines(rows: seq<TraineeSummary>, avgText: real -> string): seq<string> {
    [Text.Join(Header, ',')] + seq(|rows|, i requires 0 <= i < |rows| => Row(rows[i], avgText))
  }

  /** The text `exportCsv` puts in the downloaded file. */
  function Csv(rows: seq<TraineeSummary>, avgText: real -> string): string {
    Text.Join(Lines(rows, avgText), '\n')
  }

  /** The free-text cells of a summary hold no `c`; the numeric ones never do. */
  predicate TextCellsAvoid(s: TraineeSummary, avgText: real -> string, c: char) {
    c !in s.traineeName && c !in s.traineeId && c !in avgText(s.avg) && c !in s.lastDate
  }

  // ---- what the export promises ------------------------------------------------

  /** The header line as it appears in the file. */
  lemma HeaderLine()
    ensures Text.Join(Header, ',') == "Name,ID,Exams,Avg,Pass,Fail,Last Date"
  {
    var front, back := ["Name", "ID", "Exams"], ["Avg", "Pass", "Fail", "Last Date"];
    assert Header == front + back;
    HeaderHalves();
    Text.JoinAppend(front, back, ',');
    HeaderPieces();
  }

  lemma HeaderPieces()
    ensures "Name,ID,Exams" + [','] + "Avg,Pass,Fail,Last Date" == "Name,ID,Exams,Avg,Pass,Fail,Last Date"
  {
  }

  lemma HeaderHalves()
    ensures Text.Join(["Name", "ID", "Exams"], ',') == "Name,ID,Exams"
    ensures Text.Join(["Avg", "Pass", "Fail", "Last Date"], ',') == "Avg,Pass,Fail,Last Date"
  {
    var back, last := ["Avg", "Pass"], ["Fail", "Last Date"];
    Text.JoinAppend(back, last, ',');
    assert back + last == ["Avg", "Pass", "Fail", "Last Date"];
  }

  /** The comma count of seven cells is the sum of their comma counts. */
  lemma SevenCellsCount(cells: seq<string>, c: char)
    requires |cells| == 7
    ensures Text.TotalCount(cells, c) ==
            Text.CountChar(cells[0], c) + Text.CountChar(cells[1], c) + Text.CountChar(cells[2], c)
            + Text.CountChar(cells[3], c) + Text.CountChar(cells[4], c) + Text.CountChar(cells[5], c)
            + Text.CountChar(cells[6], c)
  {
    assert cells[6..][1..] == [];
    assert Text.TotalCount(cells[6..], c) == Text.CountChar(cells[6], c);
    assert cells[5..][1..] == cells[6..];
    assert Text.TotalCount(cells[5..], c) == Text.CountChar(cells[5], c) + Text.TotalCount(cells[6..], c);
    assert cells[4..][1..] == cells[5..];
    assert Text.TotalCount(cells[4..], c) == Text.CountChar(cells[4], c) + Text.TotalCount(cells[5..], c);
    assert cells[3..][1..] == cells[4..];
    assert Text.TotalCount(cells[3..], c) == Text.CountChar(cells[3], c) + Text.TotalCount(cells[4..], c);
    assert cells[2..][1..] == cells[3..];
    assert Text.TotalCount(cells[2..], c) == Text.CountChar(cells[2], c) + Text.TotalCount(cells[3..], c);
    assert cells[1..][1..] == cells[2..];
    assert Text.TotalCount(cells[1..], c) == Text.CountChar(cells[1], c) + Text.TotalCount(cells[2..], c);
  }

  /** The file starts with the header line, whatever the summaries hold. */
  lemma CsvStartsWithHeader(rows: seq<TraineeSummary>, avgText: real -> string)
    ensures Text.Split(Csv(rows, avgText), '\n')[0] == "Name,ID,Exams,Avg,Pass,Fail,Last Date"
    ensures "Name,ID,Exams,Avg,Pass,Fail,Last Date" <= Csv(rows, avgText)
  {
    var header := Text.Join(Header, ',');
    HeaderLine();
    HeaderAvoidsNewline();
    var lines := Lines(rows, avgText);
    if |rows| == 0 {
      assert lines == [header];
      Text.SplitNoSep(header, '\n');
    } else {
      var rest := Text.Join(lines[1..], '\n');
      assert Csv(rows, avgText) == header + ['\n'] + rest;
      Text.SplitPrefix(header, '\n', rest);
    }
  }

  /** Rendered integers are digits with an optional minus sign: no comma, no line break. */
  lemma IntTextIsPlain(i: int)
    ensures ',' !in Text.IntToString(i) && '\n' !in Text.IntToString(i)
  {
    var n: nat := if i < 0 then -i else i;
    var d := Text.NatToString(n);
    assert forall k :: 0 <= k < |d| ==> Text.IsDigit(d[k]);
    if i < 0 {
      assert Text.IntToString(i) == "-" + d;
    }
  }

  /** Joining pieces free of `c` with a separator other than `c` gives a text free of `c`. */
  lemma {:induction false} JoinAvoids(parts: seq<string>, sep: char, c: char)
    requires c != sep
    requires forall i :: 0 <= i < |parts| ==> c !in parts[i]
    ensures c !in Text.Join(parts, sep)
  {
    if |parts| > 1 {
      JoinAvoids(parts[1..], sep, c);
    }
  }

  /** No line of the file holds a line break when no text cell does. */
  lemma LinesAvoidNewline(rows: seq<TraineeSummary>, avgText: real -> string)
    requires forall i :: 0 <= i < |rows| ==> TextCellsAvoid(rows[i], avgText, '\n')
    ensures forall k :: 0 <= k < |Lines(rows, avgText)| ==> '\n' !in Lines(rows, avgText)[k]
  {
    var lines := Lines(rows, avgText);
    HeaderAvoidsNewline();
    forall k | 1 <= k < |lines| ensures '\n' !in lines[k] {
      assert lines[k] == Row(rows[k - 1], avgText);
      RowAvoidsNewline(rows[k - 1], avgText);
    }
  }

  lemma HeaderAvoidsNewline()
    ensures '\n' !in Text.Join(Header, ',')
  {
    JoinAvoids(Header, ',', '\n');
  }

  lemma RowAvoidsNewline(s: TraineeSummary, avgText: real -> string)
    requires TextCellsAvoid(s, avgText, '\n')
    ensures '\n' !in Row(s, avgText)
  {
    IntTextIsPlain(s.exams);
    IntTextIsPlain(s.pass);
    IntTextIsPlain(s.fail);
    JoinAvoids(Cells(s, avgText), ',', '\n');
  }

  /**
   * When no name, id, average or date holds a line break, the file has one
   * line more than there are summaries: the header, then summary `i` on
   * line `i + 1`.
   */
  lemma CsvLines(rows: seq<TraineeSummary>, avgText: real -> string)
    requires forall i :: 0 <= i < |rows| ==> TextCellsAvoid(rows[i], avgText, '\n')
    ensures Text.Split(Csv(rows, avgText), '\n') == Lines(rows, avgText)
    ensures |Text.Split(Csv(rows, avgText), '\n')| == |rows| + 1
    ensures forall i :: 0 <= i < |rows| ==> Text.Split(Csv(rows, avgText), '\n')[i + 1] == Row(rows[i], avgText)
  {
    LinesAvoidNewline(rows, avgText);
    Text.SplitJoin(Lines(rows, avgText), '\n');
  }

  /**
   * Cells are not quoted: a row splits back into seven cells exactly when
   * no name, id, average or date holds a comma, and each comma inside one
   * adds a cell.
   */
  lemma RowCellCount(s: TraineeSummary, avgText: real -> string)
    ensures |Text.Split(Row(s, avgText), ',')| ==
            7 + Text.CountChar(s.traineeName, ',') + Text.CountChar(s.traineeId, ',')
              + Text.CountChar(avgText(s.avg), ',') + Text.CountChar(s.lastDate, ',')
    ensures |Text.Split(Row(s, avgText), ',')| == 7 <==> TextCellsAvoid(s, avgText, ',')
    ensures TextCellsAvoid(s, avgText, ',') ==> Text.Split(Row(s, avgText), ',') == Cells(s, avgText)
  {
    var cells := Cells(s, avgText);
    IntTextIsPlain(s.exams);
    IntTextIsPlain(s.pass);
    IntTextIsPlain(s.fail);
    Text.CountCharZero(Text.IntToString(s.exams), ',');
    Text.CountCharZero(Text.IntToString(s.pass), ',');
    Text.CountCharZero(Text.IntToString(s.fail), ',');
    Text.CountCharZero(s.traineeName, ',');
    Text.CountCharZero(s.traineeId, ',');
    Text.CountCharZero(avgText(s.avg), ',');
    Text.CountCharZero(s.lastDate, ',');
    Text.JoinSplitCount(cells, ',');
    SevenCellsCount(cells, ',');
    assert Text.TotalCount(cells, ',') ==
           Text.CountChar(s.traineeName, ',') + Text.CountChar(s.traineeId, ',')
           + Text.CountChar(avgText(s.avg), ',') + Text.CountChar(s.lastDate, ',');
    if TextCellsAvoid(s, avgText, ',') {
      Text.SplitJoin(cells, ',');
    }
  }
}
