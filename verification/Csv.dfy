// The CSV printer, and a parser after section 2 of RFC 4180.
module Csv {
  import opened Wrappers
  import opened Strings
  import opened Escape
  import opened DocumentLines

  // ------------------------------------------------------------------ the printer

  predicate IsSpecial(c: char) {
    c == '"' || c == ',' || c == '\r' || c == '\n'
  }

  predicate NeedsQuotes(cell: string) {
    exists i :: 0 <= i < |cell| && IsSpecial(cell[i])
  }

  function CsvCell(cell: string): string {
    if NeedsQuotes(cell) then "\"" + ReplaceAll(cell, '"', "\"\"") + "\"" else cell
  }

  function CsvCells(row: seq<string>): (cells: seq<string>)
    ensures |cells| == |row|
  {
    seq(|row|, i requires 0 <= i < |row| => CsvCell(row[i]))
  }

  function CsvLine(row: seq<string>): string {
    JoinWith(",", CsvCells(row))
  }

  function CsvLines(grid: seq<seq<string>>): (lines: seq<string>)
    ensures |lines| == |grid|
  {
    seq(|grid|, i requires 0 <= i < |grid| => CsvLine(grid[i]))
  }

  const BYTE_ORDER_MARK: char := '\U{FEFF}'

  // The header row and the text of every cell.
  function Grid(document: Document): seq<seq<string>> {
    [document.columns] + document.cells
  }

  function RenderCsv(document: Document): string {
    [BYTE_ORDER_MARK] + JoinWith("\r\n", CsvLines(Grid(document))) + "\r\n"
  }

  // ------------------------------------------------------------------ the parser

  // The inside of a quoted field, past its opening quote.
  function ReadQuoted(s: string): Option<(string, string)> {
    if s == [] then None
    else if s[0] != '"' then
      var (text, rest) :- ReadQuoted(s[1..]);
      Some(([s[0]] + text, rest))
    else if |s| >= 2 && s[1] == '"' then
      var (text, rest) :- ReadQuoted(s[2..]);
      Some((['"'] + text, rest))
    else Some(([], s[1..]))
  }

  function PlainLength(s: string): (n: nat)
    ensures n <= |s|
  {
    if s == [] || IsSpecial(s[0]) then 0 else 1 + PlainLength(s[1..])
  }

  function ReadField(s: string): Option<(string, string)> {
    if s != [] && s[0] == '"' then ReadQuoted(s[1..]) else Some((s[..PlainLength(s)], s[PlainLength(s)..]))
  }

  lemma {:induction false} QuotedConsumes(s: string)
    ensures ReadQuoted(s).Some? ==> |ReadQuoted(s).value.1| < |s|
    decreases |s|
  {
    if s != [] {
      QuotedConsumes(s[1..]);
      if |s| >= 2 {
        QuotedConsumes(s[2..]);
      }
    }
  }

  lemma FieldConsumes(s: string)
    ensures ReadField(s).Some? ==> |ReadField(s).value.1| <= |s|
  {
    if s != [] {
      QuotedConsumes(s[1..]);
    }
  }

  // One record, and what follows its last field.
  function ReadRecord(s: string): Option<(seq<string>, string)>
    decreases |s|
  {
    FieldConsumes(s);
    var (field, rest) :- ReadField(s);
    if rest == [] || rest[0] != ',' then Some(([field], rest))
    else
      var (fields, after) :- ReadRecord(rest[1..]);
      Some(([field] + fields, after))
  }

  lemma {:induction false} RecordConsumes(s: string)
    ensures ReadRecord(s).Some? ==> |ReadRecord(s).value.1| <= |s|
    decreases |s|
  {
    FieldConsumes(s);
    if ReadField(s).Some? {
      var rest := ReadField(s).value.1;
      if rest != [] && rest[0] == ',' {
        RecordConsumes(rest[1..]);
      }
    }
  }

  // All records; the last line break may be missing.
  function ReadRecords(s: string): Option<seq<seq<string>>>
    decreases |s|
  {
    if s == [] then Some([])
    else
      RecordConsumes(s);
      var (fields, rest) :- ReadRecord(s);
      if rest == [] then Some([fields])
      else if |rest| < 2 || rest[..2] != "\r\n" then None
      else
        var others :- ReadRecords(rest[2..]);
        Some([fields] + others)
  }

  // A file of records behind a byte order mark.
  function ReadCsv(s: string): Option<seq<seq<string>>> {
    if s == [] || s[0] as int != 0xFEFF then None else ReadRecords(s[1..])
  }

  // ------------------------------------------------------------------ the round trip

  // What ends a field.
  predicate EndsField(rest: string) {
    rest != [] && (rest[0] == ',' || rest[0] == '\r')
  }

  // Inside quotes two quotes read as one, and any other character as itself.
  lemma QuotedCharacter(c: char, others: string)
    requires ReadQuoted(others).Some?
    ensures var image := if c == '"' then "\"\"" else [c];
            ReadQuoted(image + others) == Some(([c] + ReadQuoted(others).value.0, ReadQuoted(others).value.1))
  {
    if c == '"' {
      assert ("\"\"" + others)[2..] == others;
    } else {
      assert ([c] + others)[1..] == others;
    }
  }

  lemma {:induction false} QuotedReads(cell: string, rest: string)
    requires EndsField(rest)
    ensures ReadQuoted(ReplaceAll(cell, '"', "\"\"") + ("\"" + rest)) == Some((cell, rest))
  {
    var after := "\"" + rest;
    if cell == [] {
      assert ReplaceAll(cell, '"', "\"\"") + after == after && after[1..] == rest;
    } else {
      var image := if cell[0] == '"' then "\"\"" else [cell[0]];
      assert ReplaceAll(cell, '"', "\"\"") == image + ReplaceAll(cell[1..], '"', "\"\"");
      hide ReadQuoted, ReplaceAll, EndsField;
      QuotedReads(cell[1..], rest);
      QuotedCharacter(cell[0], ReplaceAll(cell[1..], '"', "\"\"") + after);
      Associate(image, ReplaceAll(cell[1..], '"', "\"\""), after);
      assert cell == [cell[0]] + cell[1..];
    }
  }

  lemma Associate(a: string, b: string, c: string)
    ensures (a + b) + c == a + (b + c)
  {
  }

  lemma {:induction false} PlainReads(cell: string, rest: string)
    requires EndsField(rest) && forall i :: 0 <= i < |cell| ==> !IsSpecial(cell[i])
    ensures PlainLength(cell + rest) == |cell|
  {
    if cell == [] {
      assert cell + rest == rest;
    } else {
      PlainReads(cell[1..], rest);
      assert (cell + rest)[1..] == cell[1..] + rest;
    }
  }

  lemma QuotedCellReads(cell: string, rest: string)
    requires EndsField(rest)
    ensures ReadField("\"" + ReplaceAll(cell, '"', "\"\"") + "\"" + rest) == Some((cell, rest))
  {
    var s := "\"" + ReplaceAll(cell, '"', "\"\"") + "\"" + rest;
    assert s[1..] == ReplaceAll(cell, '"', "\"\"") + ("\"" + rest);
    QuotedReads(cell, rest);
  }

  lemma CellReads(cell: string, rest: string)
    requires EndsField(rest)
    ensures ReadField(CsvCell(cell) + rest) == Some((cell, rest))
  {
    if NeedsQuotes(cell) {
      QuotedCellReads(cell, rest);
    } else {
      PlainReads(cell, rest);
      Parts(cell, rest);
      assert cell != [] ==> !IsSpecial(cell[0]);
    }
  }

  lemma {:induction false} LineReads(row: seq<string>, rest: string)
    requires row != [] && rest != [] && rest[0] == '\r'
    ensures ReadRecord(CsvLine(row) + rest) == Some((row, rest))
  {
    var first, others := row[0], row[1..];
    if others == [] {
      CellReads(first, rest);
      assert row == [first];
    } else {
      LineFromFront(row, rest);
      var after := "," + (CsvLine(others) + rest);
      CellReads(first, after);
      assert after[1..] == CsvLine(others) + rest;
      LineReads(others, rest);
      assert row == [first] + others;
    }
  }

  lemma LineFromFront(row: seq<string>, rest: string)
    requires |row| >= 2
    ensures CsvLine(row) + rest == CsvCell(row[0]) + ("," + (CsvLine(row[1..]) + rest))
  {
    JoinFromFront(",", CsvCells(row));
    assert CsvCells(row)[1..] == CsvCells(row[1..]);
  }

  function AsRead(row: seq<string>): seq<string> {
    if row == [] then [""] else row
  }

  lemma AnyLineReads(row: seq<string>, rest: string)
    requires rest != [] && rest[0] == '\r'
    ensures ReadRecord(CsvLine(row) + rest) == Some((AsRead(row), rest))
  {
    if row == [] {
      assert CsvLine(row) + rest == rest;
      assert rest[..0] == "" && rest[0..] == rest;
    } else {
      LineReads(row, rest);
    }
  }

  function AllAsRead(grid: seq<seq<string>>): (rows: seq<seq<string>>)
    ensures |rows| == |grid|
  {
    seq(|grid|, i requires 0 <= i < |grid| => AsRead(grid[i]))
  }

  // The printed lines, each with its line break.
  function Printed(grid: seq<seq<string>>): string {
    if grid == [] then [] else JoinWith("\r\n", CsvLines(grid)) + "\r\n"
  }

  lemma PrintedFromFront(grid: seq<seq<string>>)
    requires grid != []
    ensures Printed(grid) == CsvLine(grid[0]) + ("\r\n" + Printed(grid[1..]))
  {
    if |grid| > 1 {
      JoinFromFront("\r\n", CsvLines(grid));
      assert CsvLines(grid)[1..] == CsvLines(grid[1..]);
    }
  }

  lemma {:induction false} GridReads(grid: seq<seq<string>>)
    ensures ReadRecords(Printed(grid)) == Some(AllAsRead(grid))
  {
    hide *;
    if grid == [] {
      NoRecords();
    } else {
      PrintedFromFront(grid);
      AnyLineReads(grid[0], "\r\n" + Printed(grid[1..]));
      GridReads(grid[1..]);
      OneMoreRecord(Printed(grid), AsRead(grid[0]), Printed(grid[1..]));
      AllAsReadFromFront(grid);
    }
  }

  lemma NoRecords()
    ensures ReadRecords(Printed([])) == Some([]) == Some(AllAsRead([]))
  {
  }

  lemma AllAsReadFromFront(grid: seq<seq<string>>)
    requires grid != []
    ensures AllAsRead(grid) == [AsRead(grid[0])] + AllAsRead(grid[1..])
  {
  }

  lemma OneMoreRecord(s: string, fields: seq<string>, after: string)
    requires s != [] && ReadRecord(s) == Some((fields, "\r\n" + after)) && ReadRecords(after).Some?
    ensures ReadRecords(s) == Some([fields] + ReadRecords(after).value)
  {
    hide ReadRecord;
    Parts("\r\n", after);
  }

  lemma {:induction false} ReplacingLengthens(s: string, c: char, image: string)
    requires |image| >= 1
    ensures |ReplaceAll(s, c, image)| >= |s|
  {
    if s != [] {
      ReplacingLengthens(s[1..], c, image);
    }
  }

  /** A cell stands as it is exactly when it has no quote, comma or line break. */
  lemma CellsAreQuotedExactlyWhen(cell: string)
    ensures CsvCell(cell) == cell <==> '"' !in cell && ',' !in cell && '\r' !in cell && '\n' !in cell
  {
    ReplacingLengthens(cell, '"', "\"\"");
    if c :| c in cell && IsSpecial(c) {
      var i :| 0 <= i < |cell| && cell[i] == c;
    }
  }

  /** Parsing the printed file gives back the column names and the rows of texts, whatever
      characters they have, if and only if the document has a column. */
  lemma CsvRoundTrip(document: Document)
    requires Rectangular(document)
    ensures ReadCsv(RenderCsv(document)).Some?
    ensures ReadCsv(RenderCsv(document)) == Some([document.columns] + document.cells) <==> |document.columns| >= 1
  {
    var grid := Grid(document);
    GridReads(grid);
    assert RenderCsv(document)[1..] == Printed(grid);
    if |document.columns| >= 1 {
      forall i | 0 <= i < |grid|
        ensures AllAsRead(grid)[i] == grid[i]
      {
        assert i > 0 ==> grid[i] == document.cells[i - 1];
      }
      assert AllAsRead(grid) == grid;
    } else {
      assert AllAsRead(grid)[0] == [""] && grid[0] == [];
    }
  }
}
