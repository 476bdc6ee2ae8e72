// The whole PDF export: from a document to its file, and what a reader of the file sees of it.
module PrintedDocument {
  import opened Wrappers
  import opened TextWrap
  import opened DocumentLines
  import opened Escape
  import opened Decimal
  import PageContent
  import Pdf
  import PdfReader
  import PdfWalker
  import TextOperators
  import Ascii

  // What the document has to say, in order.
  function Content(document: Document): seq<string>
    requires Rectangular(document)
  {
    Heading(document) + RenderedRows(document) + Closing(document)
  }

  function AllLines(document: Document): seq<string>
    requires Rectangular(document)
  {
    WrapEach(Content(document), LINE_WIDTH)
  }

  method RenderPdf(document: Document, normal: string -> string) returns (file: string)
    requires Rectangular(document)
    ensures file == Pdf.File(Pdf.Objects(Pdf.Streams(AllLines(document), normal)))
  {
    DoubleWrappingIsWrapping(document);
    hide Pdf.File, Pdf.Objects, Pdf.Streams, WrapEach, Heading, RenderedRows, Closing;
    var lines := Lines(document);
    file := Pdf.RenderPdf(lines, normal);
  }

  // ------------------------------------------------------------------ ink through the character set

  // No white space but blanks.
  predicate OnlyBlanks(s: string) {
    forall i :: 0 <= i < |s| ==> IsSpace(s[i]) ==> s[i] == ' '
  }

  lemma {:induction false} JoinedHasOnlyBlanks(words: seq<string>)
    requires AllProper(words)
    ensures OnlyBlanks(Joined(words))
  {
    if words != [] {
      JoinedHasOnlyBlanks(words[..|words| - 1]);
      assert Proper(words[|words| - 1]);
    }
  }

  lemma {:induction false} SubstitutedAppend(a: string, b: string, f: char -> string)
    ensures Substituted(a + b, f) == Substituted(a, f) + Substituted(b, f)
  {
    if a == [] {
      assert a + b == b;
    } else {
      SubstitutedAppend(a[1..], b, f);
      assert (a + b)[1..] == a[1..] + b;
      Associate(f(a[0]), Substituted(a[1..], f), Substituted(b, f));
    }
  }

  lemma SubstitutedOne(c: char, f: char -> string)
    ensures Substituted([c], f) == f(c)
  {
    assert [c][1..] == [] && f(c) + [] == f(c);
  }

  // Blanks apart, it does not matter whether the white space is dropped before the substitution.
  lemma {:induction false} InkOfSubstituted(s: string, f: char -> string)
    requires OnlyBlanks(s) && f(' ') == " "
    ensures Ink(Substituted(s, f)) == Ink(Substituted(Ink(s), f))
  {
    if s != [] {
      var rest := s[1..];
      InkOfSubstituted(rest, f);
      InkAppend(f(s[0]), Substituted(rest, f));
      SubstitutedAppend(InkAt(s[0]), Ink(rest), f);
      SubstitutedOne(s[0], f);
      InkAppend(Substituted(InkAt(s[0]), f), Substituted(Ink(rest), f));
      assert " "[1..] == [] && IsSpace(' ') && Ink(" ") == [];
    }
  }

  // The normalisation works character by character and leaves blanks alone.
  ghost predicate Decomposes(normal: string -> string, parts: char -> string) {
    parts(' ') == " " && forall s: string :: normal(s) == Substituted(s, parts)
  }

  // What becomes of a character on its way to the page.
  function Shape(parts: char -> string): char -> string {
    c => Substituted(parts(c), Ascii.Image)
  }

  lemma {:induction false} SubstitutedTwice(s: string, f: char -> string, g: char -> string)
    ensures Substituted(Substituted(s, f), g) == Substituted(s, c => Substituted(f(c), g))
  {
    if s != [] {
      SubstitutedTwice(s[1..], f, g);
      SubstitutedAppend(f(s[0]), Substituted(s[1..], f), g);
    }
  }

  lemma PrintedShape(s: string, normal: string -> string, parts: char -> string)
    requires Decomposes(normal, parts)
    ensures Ascii.Printed(normal(s)) == Substituted(s, Shape(parts)) && Shape(parts)(' ') == " "
  {
    Ascii.PassesAreOne(normal(s));
    SubstitutedTwice(s, parts, Ascii.Image);
    SubstitutedOne(' ', Ascii.Image);
  }

  lemma {:induction false} InkOfShown(lines: seq<string>, normal: string -> string, parts: char -> string)
    requires Decomposes(normal, parts) && forall i :: 0 <= i < |lines| ==> OnlyBlanks(lines[i])
    ensures Ink(Flat(PageContent.Shown(lines, normal))) == Ink(Substituted(Ink(Flat(lines)), Shape(parts)))
  {
    hide Substituted, Ink, Ascii.Printed, Shape, Decomposes, OnlyBlanks;
    if lines == [] {
      NoInk(Shape(parts));
      assert PageContent.Shown(lines, normal) == [];
    } else {
      var shorter, last := lines[..|lines| - 1], lines[|lines| - 1];
      InkOfShown(shorter, normal, parts);
      assert PageContent.Shown(lines, normal)[..|lines| - 1] == PageContent.Shown(shorter, normal);
      PrintedShape(last, normal, parts);
      InkOfLast(Flat(PageContent.Shown(shorter, normal)), Flat(shorter), last, Shape(parts));
    }
  }

  lemma NoInk(f: char -> string)
    ensures Ink(Flat([])) == Ink(Substituted(Ink(Flat([])), f))
  {
  }

  lemma InkOfLast(shown: string, flat: string, last: string, image: char -> string)
    requires Ink(shown) == Ink(Substituted(Ink(flat), image)) && OnlyBlanks(last) && image(' ') == " "
    ensures Ink(shown + Substituted(last, image)) == Ink(Substituted(Ink(flat + last), image))
  {
    hide *;
    InkAppend(shown, Substituted(last, image));
    InkOfSubstituted(last, image);
    InkAppend(flat, last);
    SubstitutedAppend(Ink(flat), Ink(last), image);
    InkAppend(Substituted(Ink(flat), image), Substituted(Ink(last), image));
  }

  // ------------------------------------------------------------------ the pages' lines

  function TextsOf(shown: seq<TextOperators.Placed>): (texts: seq<string>)
    ensures |texts| == |shown|
  {
    seq(|shown|, i requires 0 <= i < |shown| => shown[i].text)
  }

  // The texts on sheets apart from the last of each, the footers.
  function Bodies(sheets: seq<PdfWalker.Sheet>): seq<string> {
    if sheets == [] then []
    else
      var shown := sheets[|sheets| - 1].shown;
      Bodies(sheets[..|sheets| - 1]) + if shown == [] then [] else TextsOf(shown[..|shown| - 1])
  }

  lemma ShownAppend(a: seq<string>, b: seq<string>, normal: string -> string)
    ensures PageContent.Shown(a + b, normal) == PageContent.Shown(a, normal) + PageContent.Shown(b, normal)
  {
  }

  lemma BodyOfSheet(lines: seq<string>, normal: string -> string, index: nat)
    requires index < |Pages(lines)|
    ensures var shown := PdfWalker.ShownOn(lines, normal, index);
            shown != [] && TextsOf(shown[..|shown| - 1]) == PageContent.Shown(Page(lines, index), normal)
  {
    hide Ascii.Printed, Substituted;
    var page := Page(lines, index);
    forall k | 0 <= k < |page| {
      Ascii.PassesAreOne(normal(page[k]));
    }
  }

  lemma {:induction false} BodiesAreTheLines(lines: seq<string>, normal: string -> string, n: nat)
    requires n <= |Pages(lines)|
    ensures Bodies(PdfWalker.Shown(lines, normal)[..n]) == PageContent.Shown(FirstPages(lines, n), normal)
  {
    hide *;
    var sheets := PdfWalker.Shown(lines, normal);
    SheetsAre(lines, normal);
    if n == 0 {
      NoBodies(lines, normal);
    } else {
      BodiesAreTheLines(lines, normal, n - 1);
      assert sheets[..n] == sheets[..n - 1] + [sheets[n - 1]];
      BodiesNext(sheets[..n - 1], sheets[n - 1]);
      BodyOfSheet(lines, normal, n - 1);
      ShownAppend(FirstPages(lines, n - 1), Page(lines, n - 1), normal);
      FirstPagesNext(lines, n);
    }
  }

  lemma SheetsAre(lines: seq<string>, normal: string -> string)
    ensures |Pages(lines)| == PageCount(|lines|) == |PdfWalker.Shown(lines, normal)|
    ensures forall i :: 0 <= i < |Pages(lines)| ==>
            PdfWalker.Shown(lines, normal)[i].shown == PdfWalker.ShownOn(lines, normal, i)
  {
    hide PdfWalker.ShownOn;
  }

  lemma NoBodies(lines: seq<string>, normal: string -> string)
    ensures Bodies([]) == PageContent.Shown(FirstPages(lines, 0), normal)
  {
  }

  lemma BodiesNext(sheets: seq<PdfWalker.Sheet>, sheet: PdfWalker.Sheet)
    ensures Bodies(sheets + [sheet]) ==
            Bodies(sheets) + if sheet.shown == [] then [] else TextsOf(sheet.shown[..|sheet.shown| - 1])
  {
    assert (sheets + [sheet])[..|sheets|] == sheets;
  }

  lemma FirstPagesNext(lines: seq<string>, n: nat)
    requires n > 0
    ensures FirstPages(lines, n) == FirstPages(lines, n - 1) + Page(lines, n - 1)
  {
  }

  // ------------------------------------------------------------------ what a document says

  // Texts with a bar between any two.
  function Barred(parts: seq<string>): string {
    if parts == [] then "" else Ink(parts[0]) + (if |parts| > 1 then "|" + Barred(parts[1..]) else "")
  }

  // A row: each cell behind the name of its column.
  function RowInk(columns: seq<string>, cells: seq<string>): string
    requires |columns| == |cells|
  {
    if columns == [] then ""
    else
      Ink(columns[0]) + ":" + Ink(cells[0]) +
      if |columns| > 1 then "|" + RowInk(columns[1..], cells[1..]) else ""
  }

  function RowsInk(columns: seq<string>, rows: seq<seq<string>>): string
    requires forall i :: 0 <= i < |rows| ==> |rows[i]| == |columns|
  {
    if rows == [] then "" else RowsInk(columns, rows[..|rows| - 1]) + RowInk(columns, rows[|rows| - 1])
  }

  function TitleInk(document: Document): string {
    var institution := document.institutionName;
    Ink(document.title) + Ink(document.tenantName) +
    (if institution.Some? && institution.value != "" then "|" + Ink(institution.value) else "")
  }

  // The numbers of the export and its filters.
  function FactsInk(document: Document): string {
    "Generated:" + Ink(document.generatedAt) + "ExportID:" + Ink(document.exportId) +
    "Rows:" + Numeral(|document.cells|) + "Filters:" + Ink(document.filters)
  }

  function Rule(): string {
    seq(92, i => '-')
  }

  // Everything but white space that the document says, in order.
  function DocumentInk(document: Document): string
    requires Rectangular(document)
  {
    TitleInk(document) + FactsInk(document) + Barred(document.columns) + Rule() +
    if document.cells == [] then "Norecordsmatchedtheexportfilters." else RowsInk(document.columns, document.cells)
  }

  lemma InkIsKept(s: string)
    requires forall i :: 0 <= i < |s| ==> !IsSpace(s[i])
    ensures Ink(s) == s
  {
    if s != [] {
      InkIsKept(s[1..]);
    }
  }

  lemma BarInk()
    ensures Ink(" | ") == "|" && Ink(": ") == ":" && Ink("") == ""
  {
    assert " | "[1..] == "| " && "| "[1..] == " " && " "[1..] == "" && ": "[1..] == " ";
    assert IsSpace(' ') && !IsSpace('|') && !IsSpace(':');
  }

  lemma {:induction false} InkOfJoined(parts: seq<string>)
    ensures Ink(JoinWith(" | ", parts)) == Barred(parts)
  {
    hide Ink;
    BarInk();
    if |parts| > 1 {
      JoinFromFront(" | ", parts);
      InkOfJoined(parts[1..]);
      InkAppend(parts[0], " | " + JoinWith(" | ", parts[1..]));
      InkAppend(" | ", JoinWith(" | ", parts[1..]));
    } else if |parts| == 1 {
      assert Ink(parts[0]) + "" == Ink(parts[0]);
    }
  }

  function Fields(columns: seq<string>, cells: seq<string>): seq<string>
    requires |columns| == |cells|
  {
    seq(|columns|, i requires 0 <= i < |columns| => columns[i] + ": " + cells[i])
  }

  lemma {:induction false} InkOfFields(columns: seq<string>, cells: seq<string>)
    requires |columns| == |cells|
    ensures Barred(Fields(columns, cells)) == RowInk(columns, cells)
  {
    hide Ink;
    if columns != [] {
      BarInk();
      InkAppend(columns[0] + ": ", cells[0]);
      InkAppend(columns[0], ": ");
      InkOfFields(columns[1..], cells[1..]);
      assert Fields(columns, cells)[1..] == Fields(columns[1..], cells[1..]);
    }
  }

  lemma {:induction false} InkOfRows(columns: seq<string>, rows: seq<seq<string>>, rendered: seq<string>)
    requires |rendered| == |rows| && forall i :: 0 <= i < |rows| ==> |rows[i]| == |columns|
    requires forall i :: 0 <= i < |rows| ==> rendered[i] == RenderedRow(columns, rows[i])
    ensures Ink(Flat(rendered)) == RowsInk(columns, rows)
  {
    hide Ink, RowInk, Barred;
    BarInk();
    if rows != [] {
      var n := |rows| - 1;
      InkOfRows(columns, rows[..n], rendered[..n]);
      assert Fields(columns, rows[n]) ==
             seq(|columns|, i requires 0 <= i < |columns| => columns[i] + ": " + rows[n][i]);
      InkOfJoined(Fields(columns, rows[n]));
      InkOfFields(columns, rows[n]);
      InkAppend(Flat(rendered[..n]), rendered[n]);
    }
  }

  lemma LabelInk()
    ensures Ink("Generated: ") == "Generated:" && Ink("Export ID: ") == "ExportID:" && Ink("Rows: ") == "Rows:"
    ensures Ink("Filters: ") == "Filters:"
    ensures Ink("No records matched the export filters.") == "Norecordsmatchedtheexportfilters."
  {
    BarInk();
    SpaceInk();
    hide Ink;
    Plain("Generated");
    Plain("Export");
    Plain("ID");
    Plain("Rows");
    Plain("Filters");
    assert "Generated" + ": " == "Generated: " && "Rows" + ": " == "Rows: " && "Filters" + ": " == "Filters: ";
    assert "Export" + " " + "ID" + ": " == "Export ID: ";
    InkAppend("Generated", ": ");
    InkAppend("Rows", ": ");
    InkAppend("Filters", ": ");
    InkAppend("Export" + " " + "ID", ": ");
    InkAppend("Export" + " ", "ID");
    InkAppend("Export", " ");
    Sentence();
  }

  lemma SpaceInk()
    ensures Ink(" ") == ""
  {
    assert " "[1..] == "" && IsSpace(' ');
  }

  lemma Plain(s: string)
    requires forall i :: 0 <= i < |s| ==> 'A' <= s[i] <= 'z' || s[i] == '.' || s[i] == '-' || '0' <= s[i] <= '9'
    ensures Ink(s) == s
  {
    InkIsKept(s);
  }

  lemma Sentence()
    ensures Ink("No records matched the export filters.") == "Norecordsmatchedtheexportfilters."
  {
    hide *;
    assert "No records matched" + " " + "the export filters." == "No records matched the export filters.";
    assert "Norecordsmatched" + "theexportfilters." == "Norecordsmatchedtheexportfilters.";
    TwoWords("No records matched", "the export filters.");
    FirstHalf();
    SecondHalf();
  }

  lemma FirstHalf()
    ensures Ink("No records matched") == "Norecordsmatched"
  {
    hide *;
    assert "No" + " " + "records" == "No records" && "No records" + " " + "matched" == "No records matched";
    assert "No" + "records" + "matched" == "Norecordsmatched";
    TwoWords("No", "records");
    TwoWords("No records", "matched");
    Plain("No");
    Plain("records");
    Plain("matched");
  }

  lemma SecondHalf()
    ensures Ink("the export filters.") == "theexportfilters."
  {
    hide *;
    assert "the" + " " + "export" == "the export" && "the export" + " " + "filters." == "the export filters.";
    assert "the" + "export" + "filters." == "theexportfilters.";
    TwoWords("the", "export");
    TwoWords("the export", "filters.");
    Plain("the");
    Plain("export");
    Plain("filters.");
  }

  lemma TwoWords(a: string, b: string)
    ensures Ink(a + " " + b) == Ink(a) + Ink(b)
  {
    SpaceInk();
    InkAppend(a + " ", b);
    InkAppend(a, " ");
  }

  lemma NoFlat()
    ensures Flat([]) == ""
  {
  }

  lemma InkOfFour(a: string, b: string, c: string, d: string)
    ensures Ink(Flat([a, b, c, d])) == Ink(a) + Ink(b) + Ink(c) + Ink(d)
  {
    hide Ink, Flat;
    InkOfTwo(a, b);
    InkOfTwo(c, d);
    FlatAppend([a, b], [c, d]);
    assert [a, b] + [c, d] == [a, b, c, d];
    InkAppend(Flat([a, b]), Flat([c, d]));
  }

  lemma InkOfTwo(a: string, b: string)
    ensures Ink(Flat([a, b])) == Ink(a) + Ink(b)
  {
    hide Ink, Flat;
    FlatAppend([a], [b]);
    assert [a] + [b] == [a, b];
    FlatOne(a);
    FlatOne(b);
    InkAppend(a, b);
  }

  lemma InkOfHeading(document: Document)
    ensures Ink(Flat(Heading(document))) ==
            TitleInk(document) + FactsInk(document) + Barred(document.columns) + Rule()
  {
    hide Ink, Flat, Barred;
    var title, facts, columns := TitleLines(document), FactLines(document), ColumnLines(document);
    assert Heading(document) == title + facts + columns;
    FlatAppend(title + facts, columns);
    FlatAppend(title, facts);
    InkAppend(Flat(title) + Flat(facts), Flat(columns));
    InkAppend(Flat(title), Flat(facts));
    InkOfTitle(document);
    InkOfFacts(document);
    InkOfColumns(document);
    assert TitleInk(document) + FactsInk(document) + (Barred(document.columns) + Rule()) ==
           TitleInk(document) + FactsInk(document) + Barred(document.columns) + Rule();
  }

  function TitleLines(document: Document): seq<string> {
    var institution := document.institutionName;
    [document.title,
     document.tenantName + (if institution.Some? && institution.value != "" then " | " + institution.value else "")]
  }

  function FactLines(document: Document): seq<string> {
    ["Generated: " + document.generatedAt, "Export ID: " + document.exportId, "Rows: " + Numeral(|document.cells|),
     "Filters: " + document.filters]
  }

  function ColumnLines(document: Document): seq<string> {
    ["", JoinWith(" | ", document.columns), Rule()]
  }

  lemma InkOfTitle(document: Document)
    ensures Ink(Flat(TitleLines(document))) == TitleInk(document)
  {
    hide Ink, Flat;
    BarInk();
    var institution := document.institutionName;
    var more := if institution.Some? && institution.value != "" then " | " + institution.value else "";
    InkOfTwo(document.title, document.tenantName + more);
    InkAppend(document.tenantName, more);
    InkAppend(" | ", if institution.Some? then institution.value else "");
  }

  lemma InkOfFacts(document: Document)
    ensures Ink(Flat(FactLines(document))) == FactsInk(document)
  {
    hide Ink, Flat, Numeral;
    LabelInk();
    var n := Numeral(|document.cells|);
    InkOfFour("Generated: " + document.generatedAt, "Export ID: " + document.exportId, "Rows: " + n,
        "Filters: " + document.filters);
    InkAppend("Generated: ", document.generatedAt);
    InkAppend("Export ID: ", document.exportId);
    InkAppend("Rows: ", n);
    InkAppend("Filters: ", document.filters);
    Plain(n);
  }

  lemma InkOfColumns(document: Document)
    ensures Ink(Flat(ColumnLines(document))) == Barred(document.columns) + Rule()
  {
    hide Ink, Flat, Barred;
    BarInk();
    NoFlat();
    InkOfJoined(document.columns);
    InkOfFour("", JoinWith(" | ", document.columns), Rule(), "");
    FlatAppend(ColumnLines(document), [""]);
    FlatOne("");
    assert ColumnLines(document) + [""] == ["", JoinWith(" | ", document.columns), Rule(), ""];
    assert Flat(ColumnLines(document)) + "" == Flat(ColumnLines(document));
    Plain(Rule());
  }

  lemma InkOfContent(document: Document)
    requires Rectangular(document)
    ensures Ink(Flat(Content(document))) == DocumentInk(document)
  {
    hide Ink, Flat, RowsInk, TitleInk, FactsInk, Barred, Heading;
    var rows, closing := RenderedRows(document), Closing(document);
    FlatAppend(Heading(document) + rows, closing);
    FlatAppend(Heading(document), rows);
    InkAppend(Flat(Heading(document)) + Flat(rows), Flat(closing));
    InkAppend(Flat(Heading(document)), Flat(rows));
    InkOfHeading(document);
    InkOfRows(document.columns, document.cells, rows);
    LabelInk();
    BarInk();
    NoFlat();
    FlatOne("No records matched the export filters.");
    hide Rule, RenderedRow;
    var heading := Ink(Flat(Heading(document)));
    assert heading + "" == heading && heading + Ink(Flat(rows)) + "" == heading + Ink(Flat(rows));
    if document.cells == [] {
      assert rows == [] && closing == ["No records matched the export filters."];
    } else {
      assert closing == [];
    }
  }

  // ------------------------------------------------------------------ the whole document

  lemma {:induction false} WrapEachKeepsInk(lines: seq<string>, maximum: nat)
    requires maximum >= 1
    ensures Ink(Flat(WrapEach(lines, maximum))) == Ink(Flat(lines))
  {
    if lines != [] {
      var shorter, last := lines[..|lines| - 1], lines[|lines| - 1];
      WrapEachKeepsInk(shorter, maximum);
      WrapKeepsInk(last, maximum);
      FlatAppend(WrapEach(shorter, maximum), Wrapped(last, maximum));
      InkAppend(Flat(WrapEach(shorter, maximum)), Flat(Wrapped(last, maximum)));
      InkAppend(Flat(shorter), last);
    }
  }

  lemma LinesHaveOnlyBlanks(document: Document)
    requires Rectangular(document)
    ensures forall i :: 0 <= i < |AllLines(document)| ==> OnlyBlanks(AllLines(document)[i])
  {
    var lines := AllLines(document);
    WrapEachIsTidy(Content(document), LINE_WIDTH);
    forall i | 0 <= i < |lines|
      ensures OnlyBlanks(lines[i])
    {
      assert Tidy(lines[i], LINE_WIDTH);
      WordsAreProper(lines[i]);
      JoinedHasOnlyBlanks(Words(lines[i]));
    }
  }

  /** Whoever reads the finished file from its end sees the title, the tenant and its institution,
      the facts of the export, the columns, a rule and every row with its column names, or else that
      there is none: every character that is not white space, in order and in its printable form,
      and nothing else between the footers, whenever the offsets fit the table. */
  lemma ReadersSeeAllInk(document: Document, normal: string -> string, parts: char -> string)
    requires Rectangular(document) && Decomposes(normal, parts)
    ensures var objects := Pdf.Objects(Pdf.Streams(AllLines(document), normal));
            var read := PdfWalker.ReadDocument(Pdf.File(objects));
            && (read.Some? <==> PdfReader.AllFit(Pdf.Offsets(objects)))
            && (read.Some? ==>
                Ink(Flat(Bodies(read.value))) == Ink(Substituted(DocumentInk(document), Shape(parts))))
  {
    var lines := AllLines(document);
    var shown := PdfWalker.Shown(lines, normal);
    assert shown[..|Pages(lines)|] == shown;
    hide *;
    PdfWalker.DocumentReadsBack(lines, normal);
    BodiesAreTheLines(lines, normal, |Pages(lines)|);
    PagesHoldAllLines(lines);
    LinesHaveOnlyBlanks(document);
    InkOfShown(lines, normal, parts);
    WrapEachKeepsInk(Content(document), LINE_WIDTH);
    InkOfContent(document);
  }

  /** No line is wider than 92 characters. */
  lemma LinesAreNarrow(document: Document)
    requires Rectangular(document)
    ensures forall i :: 0 <= i < |AllLines(document)| ==> |AllLines(document)[i]| <= 92
  {
    WrapEachIsTidy(Content(document), LINE_WIDTH);
    forall i | 0 <= i < |AllLines(document)|
      ensures Tidy(AllLines(document)[i], LINE_WIDTH)
    {
    }
  }
}
