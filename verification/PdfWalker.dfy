/**
  A reader that knows nothing but the file: from the trailer's /Root to the catalogue, from its
  /Pages to the page tree, from its /Kids to the pages, and from these to their fonts and to the
  text of their /Contents (sections 7.5.5, 7.7.2, 7.7.3, 7.8.3 and 9.6.2 of ISO 32000-1).
*/
module PdfWalker {
  import opened Wrappers
  import opened Decimal
  import opened Strings
  import opened Pdf
  import opened PdfReader
  import opened PdfSyntax
  import TextOperators
  import Ascii
  import Escape
  import PageContent
  import DocumentLines

  // ------------------------------------------------------------------ the walk

  // What stands before the first occurrence of the mark.
  function UpTo(s: string, mark: string): Option<string> {
    if StartsWith(s, mark) then Some([])
    else if s == [] then None
    else
      var before :- UpTo(s[1..], mark);
      Some([s[0]] + before)
  }

  // What stands behind it.
  function Behind(s: string, mark: string): Option<string> {
    if StartsWith(s, mark) then Some(s[|mark|..])
    else if s == [] then None
    else Behind(s[1..], mark)
  }

  // The text behind the number that the table has for an object.
  function ObjectAt(file: string, slots: seq<Slot>, n: nat): Option<string> {
    if n >= |slots| || slots[n].Free? then None else ReadObject(From(file, slots[n].offset), n)
  }

  function DictionaryAt(file: string, slots: seq<Slot>, n: nat): Option<seq<Member>> {
    var text :- ObjectAt(file, slots, n);
    var own :- UpTo(text, "\nendobj\n");
    ParseDictionary(own)
  }

  // The value under a key if it is a reference, or a dictionary.
  function ReferenceUnder(entries: seq<Member>, key: string): Option<nat> {
    var v :- Lookup(entries, key);
    if v.Ref? then Some(v.number) else None
  }

  function DictionaryUnder(entries: seq<Member>, key: string): Option<seq<Member>> {
    var v :- Lookup(entries, key);
    if v.Dict? then Some(v.entries) else None
  }

  predicate HasType(entries: seq<Member>, name: string) {
    Lookup(entries, "Type") == Some(Name(name))
  }

  // A sheet of paper: its size, the font that /F1 names on it, and the text in its place.
  datatype Sheet = Sheet(width: nat, height: nat, font: string, shown: seq<TextOperators.Placed>)

  // A rectangle from the origin.
  function ReadBox(entries: seq<Member>): Option<(nat, nat)> {
    var box :- Lookup(entries, "MediaBox");
    if box.Arr? && |box.items| == 4 && box.items[0] == Int(0) && box.items[1] == Int(0) && box.items[2].Int? &&
        box.items[3].Int?
    then Some((box.items[2].value, box.items[3].value)) else None
  }

  // The name of the standard font that the resources give as /F1.
  function ReadFont(file: string, slots: seq<Slot>, page: seq<Member>): Option<string> {
    var resources :- DictionaryUnder(page, "Resources");
    var fonts :- DictionaryUnder(resources, "Font");
    var number :- ReferenceUnder(fonts, "F1");
    var font :- DictionaryAt(file, slots, number);
    var name :- Lookup(font, "BaseFont");
    if HasType(font, "Font") && Lookup(font, "Subtype") == Some(Name("Type1")) && name.Name? &&
        Lookup(font, "Encoding") == Some(Name("WinAnsiEncoding"))
    then Some(name.name) else None
  }

  // The sheet of a page that belongs to the given page tree.
  function ReadPage(file: string, slots: seq<Slot>, parent: nat, number: nat): Option<Sheet> {
    var page :- DictionaryAt(file, slots, number);
    var above :- ReferenceUnder(page, "Parent");
    var (width, height) :- ReadBox(page);
    var font :- ReadFont(file, slots, page);
    var contents :- ReferenceUnder(page, "Contents");
    var text :- ObjectAt(file, slots, contents);
    var stream :- ReadStream(text);
    var shown :- TextOperators.ReadText(stream);
    if HasType(page, "Page") && above == parent && OnlyF1(shown) then Some(Sheet(width, height, font, shown))
    else None
  }

  predicate OnlyF1(shown: seq<TextOperators.Placed>) {
    forall i :: 0 <= i < |shown| ==> shown[i].font == "/F1"
  }

  function ReadPages(file: string, slots: seq<Slot>, parent: nat, kids: seq<PdfValue>): Option<seq<Sheet>> {
    if kids == [] then Some([])
    else if !kids[0].Ref? then None
    else
      var first :- ReadPage(file, slots, parent, kids[0].number);
      var others :- ReadPages(file, slots, parent, kids[1..]);
      Some([first] + others)
  }

  // The kids of the page tree; there must be as many as it counts.
  function ReadKids(tree: seq<Member>): Option<seq<PdfValue>> {
    var kids :- Lookup(tree, "Kids");
    var count :- Lookup(tree, "Count");
    if HasType(tree, "Pages") && kids.Arr? && count == Int(|kids.items|) then Some(kids.items) else None
  }

  // The trailer's dictionary, behind the table; its size must be that of the table.
  function ReadTrailer(file: string, start: nat, slots: nat): Option<seq<Member>> {
    var trailer :- Behind(From(file, start), "trailer\n");
    var own :- UpTo(trailer, "\nstartxref\n");
    var entries :- ParseDictionary(own);
    if Lookup(entries, "Size") == Some(Int(slots)) then Some(entries) else None
  }

  // All sheets, in the order of the page tree.
  function ReadDocument(file: string): Option<seq<Sheet>> {
    var slots :- ReadXref(file);
    var start :- ReadStart(file);
    var trailer :- ReadTrailer(file, start, |slots|);
    var root :- ReferenceUnder(trailer, "Root");
    var catalog :- DictionaryAt(file, slots, root);
    var treeNumber :- ReferenceUnder(catalog, "Pages");
    var tree :- DictionaryAt(file, slots, treeNumber);
    var kids :- ReadKids(tree);
    if StartsWith(file, "%PDF-1.7\n") && HasType(catalog, "Catalog") then ReadPages(file, slots, treeNumber, kids)
    else None
  }

  // ------------------------------------------------------------------ what the objects say

  function KidsOf(pages: nat): (kids: seq<PdfValue>)
    ensures |kids| == pages
  {
    seq(pages, i requires 0 <= i => Ref(3 + 2 * i))
  }

  function CatalogEntries(): seq<Member> {
    [Member("Type", Name("Catalog")), Member("Pages", Ref(2))]
  }

  function TreeEntries(pages: nat): seq<Member> {
    [Member("Type", Name("Pages")), Member("Kids", Arr(KidsOf(pages))), Member("Count", Int(pages))]
  }

  function PageEntries(contents: nat, font: nat): seq<Member> {
    [Member("Type", Name("Page")), Member("Parent", Ref(2)),
     Member("MediaBox", Arr([Int(0), Int(0), Int(595), Int(842)])),
     Member("Resources", Dict([Member("Font", Dict([Member("F1", Ref(font))]))])), Member("Contents", Ref(contents))]
  }

  function FontEntries(): seq<Member> {
    [Member("Type", Name("Font")), Member("Subtype", Name("Type1")), Member("BaseFont", Name("Helvetica")),
     Member("Encoding", Name("WinAnsiEncoding"))]
  }

  function TrailerEntries(size: nat): seq<Member> {
    [Member("Size", Int(size)), Member("Root", Ref(1))]
  }

  // Names with their slashes.
  lemma TreeSlashes()
    ensures "/" + "Type" == "/Type" && "/" + "Catalog" == "/Catalog" && "/" + "Pages" == "/Pages"
    ensures "/" + "Kids" == "/Kids" && "/" + "Count" == "/Count" && "/" + "Size" == "/Size" && "/" + "Root" == "/Root"
  {
  }

  lemma PageSlashes()
    ensures "/" + "Page" == "/Page" && "/" + "Parent" == "/Parent" && "/" + "MediaBox" == "/MediaBox"
    ensures "/" + "Resources" == "/Resources" && "/" + "Contents" == "/Contents"
  {
  }

  lemma FontSlashes()
    ensures "/" + "Font" == "/Font" && "/" + "F1" == "/F1" && "/" + "Subtype" == "/Subtype" && "/" + "Type1" == "/Type1"
    ensures "/" + "BaseFont" == "/BaseFont" && "/" + "Helvetica" == "/Helvetica"
    ensures "/" + "Encoding" == "/Encoding" && "/" + "WinAnsiEncoding" == "/WinAnsiEncoding"
  {
  }

  lemma CatalogTextIs()
    ensures Text(Catalog) == "<< /Type /Catalog " + "/Pages " + (Numeral(2) + " 0 R") + " >>"
  {
    hide Numeral;
  }

  lemma CatalogShape(tree: string)
    ensures "<< /Type /Catalog " + "/Pages " + (tree + " 0 R") + " >>" ==
            "<< " + ("/Type" + " " + "/Catalog" + " " + ("/Pages" + " " + (tree + " 0 R"))) + " >>"
  {
    OneType("/Catalog", "/Pages" + " " + (tree + " 0 R"));
    assert "/Pages" + " " == "/Pages ";
    assert "<< /Type /Catalog " == "<< " + ("/Type " + "/Catalog" + " ");
    Regroup4("<< ", "/Type " + "/Catalog" + " ", "/Pages ", tree + " 0 R", " >>");
  }

  lemma OneType(name: string, others: string)
    ensures "/Type" + " " + name + " " + others == ("/Type " + name + " ") + others
  {
    assert "/Type" + " " == "/Type ";
  }

  lemma Regroup4(a: string, b: string, c: string, d: string, e: string)
    ensures (a + b) + c + d + e == a + (b + (c + d)) + e
  {
  }

  lemma CatalogIsPrinted()
    ensures Text(Catalog) == Print(Dict(CatalogEntries()))
  {
    assert CatalogEntries() == [Member("Type", Name("Catalog"))] + [Member("Pages", Ref(2))];
    CatalogTextIs();
    CatalogShape(Numeral(2));
    hide *;
    TreeSlashes();
    PageSlashes();
    FontSlashes();
    PrintedDictionary([Member("Type", Name("Catalog"))] + [Member("Pages", Ref(2))]);
    MoreEntries("Type", Name("Catalog"), [Member("Pages", Ref(2))]);
    LastEntry("Pages", Ref(2));
    PrintedSimply("Catalog", 2);
  }

  lemma FontShape()
    ensures "<< /Type /Font " + "/Subtype /Type1 /BaseFont /Helvetica /Encoding /WinAnsiEncoding >>" ==
            "<< " + ("/Type" + " " + "/Font" + " " + ("/Subtype" + " " + "/Type1" + " " + ("/BaseFont" +
            " " + "/Helvetica" + " " + ("/Encoding" + " " + "/WinAnsiEncoding")))) + " >>"
  {
    hide *;
    EncodingShape();
    BaseFontShape("/Encoding /WinAnsiEncoding");
    SubtypeShape("/BaseFont /Helvetica " + "/Encoding /WinAnsiEncoding");
    OneType("/Font", "/Subtype /Type1 " + ("/BaseFont /Helvetica " + "/Encoding /WinAnsiEncoding"));
    FontGlue();
  }

  lemma EncodingShape()
    ensures "/Encoding" + " " + "/WinAnsiEncoding" == "/Encoding /WinAnsiEncoding"
  {
  }

  lemma BaseFontShape(others: string)
    ensures "/BaseFont" + " " + "/Helvetica" + " " + others == "/BaseFont /Helvetica " + others
  {
    assert "/BaseFont" + " " + "/Helvetica" + " " == "/BaseFont /Helvetica ";
  }

  lemma SubtypeShape(others: string)
    ensures "/Subtype" + " " + "/Type1" + " " + others == "/Subtype /Type1 " + others
  {
    assert "/Subtype" + " " + "/Type1" + " " == "/Subtype /Type1 ";
  }

  lemma FontGlue()
    ensures "<< " + (("/Type " + "/Font" + " ") + ("/Subtype /Type1 " + ("/BaseFont /Helvetica " +
            "/Encoding /WinAnsiEncoding"))) + " >>" ==
            "<< /Type /Font " + "/Subtype /Type1 /BaseFont /Helvetica /Encoding /WinAnsiEncoding >>"
  {
    assert "<< " + ("/Type " + "/Font" + " ") == "<< /Type /Font ";
    TypeGlue();
    EncodingGlue();
    hide *;
    Regroup3("<< ", "/Type " + "/Font" + " ", "/Subtype /Type1 ", "/BaseFont /Helvetica ", "/Encoding /WinAnsiEncoding",
        " >>");
  }

  lemma TypeGlue()
    ensures "/Subtype /Type1 " + "/BaseFont /Helvetica " == "/Subtype /Type1 /BaseFont /Helvetica "
  {
  }

  lemma EncodingGlue()
    ensures "/Subtype /Type1 /BaseFont /Helvetica " + ("/Encoding /WinAnsiEncoding" + " >>") ==
            "/Subtype /Type1 /BaseFont /Helvetica /Encoding /WinAnsiEncoding >>"
  {
  }

  lemma Regroup3(a: string, b: string, c: string, d: string, e: string, f: string)
    ensures a + (b + (c + (d + e))) + f == (a + b) + ((c + d) + (e + f))
  {
  }

  lemma FontTextIs()
    ensures Text(Font) == "<< /Type /Font " + "/Subtype /Type1 /BaseFont /Helvetica /Encoding /WinAnsiEncoding >>"
  {
  }

  lemma FontIsPrinted()
    ensures Text(Font) == Print(Dict(FontEntries()))
  {
    var last := [Member("Encoding", Name("WinAnsiEncoding"))];
    var third := [Member("BaseFont", Name("Helvetica"))] + last;
    var second := [Member("Subtype", Name("Type1"))] + third;
    var entries := [Member("Type", Name("Font"))] + second;
    assert FontEntries() == entries;
    hide *;
    TreeSlashes();
    PageSlashes();
    FontSlashes();
    FontTextIs();
    FontShape();
    PrintedDictionary(entries);
    MoreEntries("Type", Name("Font"), second);
    MoreEntries("Subtype", Name("Type1"), third);
    MoreEntries("BaseFont", Name("Helvetica"), last);
    LastEntry("Encoding", Name("WinAnsiEncoding"));
    PrintedSimply("Font", 0);
    PrintedSimply("Type1", 0);
    PrintedSimply("Helvetica", 0);
    PrintedSimply("WinAnsiEncoding", 0);
  }

  lemma {:induction false} ReferencesArePrinted(numbers: seq<PdfValue>, texts: seq<string>)
    requires |numbers| == |texts| && numbers != []
    requires forall i :: 0 <= i < |numbers| ==> numbers[i].Ref? && texts[i] == Reference(numbers[i].number)
    ensures ItemsText(numbers) == DocumentLines.JoinWith(" ", texts)
  {
    hide Print, Numeral;
    PrintedSimply("", numbers[0].number);
    if |numbers| > 1 {
      ReferencesArePrinted(numbers[1..], texts[1..]);
      DocumentLines.JoinFromFront(" ", texts);
    }
  }

  lemma TreeIsPrinted(pages: nat)
    requires pages >= 1
    ensures Text(Pages(pages)) == Print(Dict(TreeEntries(pages)))
  {
    var kids := DocumentLines.JoinWith(" ", References(pages));
    var last := [Member("Count", Int(pages))];
    var second := [Member("Kids", Arr(KidsOf(pages)))] + last;
    assert TreeEntries(pages) == [Member("Type", Name("Pages"))] + second;
    assert KidsOf(pages) != [];
    ReferencesArePrinted(KidsOf(pages), References(pages));
    hide *;
    TreeSlashes();
    PageSlashes();
    FontSlashes();
    TreeShape(kids, Numeral(pages));
    PagesTextIs(pages);
    PrintedDictionary([Member("Type", Name("Pages"))] + second);
    MoreEntries("Type", Name("Pages"), second);
    MoreEntries("Kids", Arr(KidsOf(pages)), last);
    LastEntry("Count", Int(pages));
    PrintedSimply("Pages", pages);
    PrintedArray(KidsOf(pages));
  }

  lemma PagesTextIs(pages: nat)
    ensures Text(Pages(pages)) ==
            "<< /Type /Pages " + "/Kids [" + DocumentLines.JoinWith(" ", References(pages)) + "] " +
            "/Count " + Numeral(pages) + " >>"
  {
  }

  lemma TreeShape(kids: string, count: string)
    ensures "<< /Type /Pages " + "/Kids [" + kids + "] " + "/Count " + count + " >>" ==
            "<< " + ("/Type" + " " + "/Pages" + " " + ("/Kids" + " " + ("[" + kids + "]") + " " +
            ("/Count" + " " + count))) + " >>"
  {
  }

  lemma BoxNumerals()
    ensures Numeral(0) == "0" && Numeral(595) == "595" && Numeral(842) == "842"
  {
    assert Numeral(59) == "59" && Numeral(84) == "84";
  }

  lemma BoxIsPrinted()
    ensures Print(Arr([Int(0), Int(0), Int(595), Int(842)])) == "[0 0 595 842]"
  {
    var last := [Int(842)];
    var third := [Int(595)] + last;
    var second := [Int(0)] + third;
    assert [Int(0), Int(0), Int(595), Int(842)] == [Int(0)] + second;
    hide *;
    BoxNumerals();
    assert "[" + ("0" + " " + ("0" + " " + ("595" + " " + "842"))) + "]" == "[0 0 595 842]";
    PrintedArray([Int(0)] + second);
    MoreItems(Int(0), second);
    MoreItems(Int(0), third);
    MoreItems(Int(595), last);
    LastItem(Int(842));
    PrintedSimply("", 0);
    PrintedSimply("", 595);
    PrintedSimply("", 842);
  }

  lemma ResourcesArePrinted(font: nat)
    ensures Print(Dict([Member("Font", Dict([Member("F1", Ref(font))]))])) ==
            "<< /Font << /F1 " + Numeral(font) + " 0 R >> >>"
  {
    hide Print, Numeral;
    PrintedDictionary([Member("Font", Dict([Member("F1", Ref(font))]))]);
    PrintedDictionary([Member("F1", Ref(font))]);
    PrintedSimply("", font);
  }

  lemma ResourcesShape(font: string, others: string)
    ensures "/Resources" + " " + ("<< /Font << /F1 " + font + " 0 R >> >>") + " " + others ==
            "/Resources << /Font << " + ("/F1 " + ((font + " 0 R") + (" >> >> " + others)))
  {
    assert " 0 R" + " >> >> " == " 0 R >> >>" + " ";
    assert "/Resources" + " " + "<< /Font << /F1 " == "/Resources << /Font << " + "/F1 ";
    Regroup5("/Resources" + " ", "<< /Font << /F1 ", font, " 0 R >> >>", " ", others);
    Regroup6("/Resources << /Font << ", "/F1 ", font, " 0 R", " >> >> ", others);
  }

  lemma Regroup5(a: string, b: string, c: string, d: string, e: string, f: string)
    ensures a + (b + c + d) + e + f == (a + b) + (c + ((d + e) + f))
  {
  }

  lemma Regroup6(a: string, b: string, c: string, d: string, e: string, f: string)
    ensures a + (b + ((c + d) + (e + f))) == (a + b) + (c + ((d + e) + f))
  {
  }

  lemma BoxShape(others: string)
    ensures "/MediaBox" + " " + "[0 0 595 842]" + " " + others == "/MediaBox [0 0 595 842] " + others
  {
    assert "/MediaBox" + " " + "[0 0 595 842]" + " " == "/MediaBox [0 0 595 842] ";
  }

  lemma ParentShape(parent: string, others: string)
    ensures "/Parent" + " " + parent + " " + ("/MediaBox [0 0 595 842] " + others) ==
            "/Parent " + (parent + (" /MediaBox [0 0 595 842] " + others))
  {
    assert "/Parent" + " " == "/Parent " && " " + "/MediaBox [0 0 595 842] " == " /MediaBox [0 0 595 842] ";
    Regroup2("/Parent ", parent, " ", "/MediaBox [0 0 595 842] ", others);
  }

  lemma Regroup2(a: string, b: string, c: string, d: string, e: string)
    ensures a + b + c + (d + e) == a + (b + ((c + d) + e))
  {
  }

  lemma FromLeft(a: string, b: string, p: string, c: string, d: string, e: string, f: string, g: string, h: string,
                 i: string, z: string)
    ensures a + b + p + c + d + e + f + g + h + i + z ==
            a + (b + (p + (c + (d + (e + (f + (g + (h + i)))))))) + z
  {
  }

  lemma PageShape(parent: string, font: string, contents: string)
    ensures "<< /Type /Page " + "/Parent " + (parent + " 0 R") + " /MediaBox [0 0 595 842] " +
            "/Resources << /Font << " + "/F1 " + (font + " 0 R") + " >> >> " +
            "/Contents " + (contents + " 0 R") + " >>" ==
            "<< " + ("/Type" + " " + "/Page" + " " + ("/Parent" + " " + (parent + " 0 R") + " " +
            ("/MediaBox" + " " + "[0 0 595 842]" + " " + ("/Resources" + " " +
            ("<< /Font << /F1 " + font + " 0 R >> >>") + " " + ("/Contents" + " " + (contents + " 0 R")))))) + " >>"
  {
    hide *;
    var content := "/Contents " + (contents + " 0 R");
    assert "/Contents" + " " == "/Contents ";
    var resources := "/Resources << /Font << " + ("/F1 " + ((font + " 0 R") + (" >> >> " + content)));
    ResourcesShape(font, content);
    BoxShape(resources);
    ParentShape(parent + " 0 R", resources);
    var above := "/Parent " + ((parent + " 0 R") + (" /MediaBox [0 0 595 842] " + resources));
    OneType("/Page", above);
    assert "<< " + ("/Type " + "/Page" + " ") == "<< /Type /Page ";
    Regroup1("<< ", "/Type " + "/Page" + " ", above);
    FromLeft("<< /Type /Page ", "/Parent ", parent + " 0 R", " /MediaBox [0 0 595 842] ", "/Resources << /Font << ",
        "/F1 ", font + " 0 R", " >> >> ", "/Contents ", contents + " 0 R", " >>");
  }

  lemma Regroup1(a: string, b: string, c: string)
    ensures a + (b + c) == (a + b) + c
  {
  }

  lemma PageIsPrinted(contents: nat, font: nat)
    ensures Text(Page(contents, font)) == Print(Dict(PageEntries(contents, font)))
  {
    var resources := Dict([Member("Font", Dict([Member("F1", Ref(font))]))]);
    var box := Arr([Int(0), Int(0), Int(595), Int(842)]);
    var last := [Member("Contents", Ref(contents))];
    var fourth := [Member("Resources", resources)] + last;
    var third := [Member("MediaBox", box)] + fourth;
    var second := [Member("Parent", Ref(2))] + third;
    assert PageEntries(contents, font) == [Member("Type", Name("Page"))] + second;
    hide *;
    TreeSlashes();
    PageSlashes();
    FontSlashes();
    PageTextIs(contents, font);
    PageShape(Numeral(2), Numeral(font), Numeral(contents));
    PrintedDictionary([Member("Type", Name("Page"))] + second);
    MoreEntries("Type", Name("Page"), second);
    MoreEntries("Parent", Ref(2), third);
    MoreEntries("MediaBox", box, fourth);
    MoreEntries("Resources", resources, last);
    LastEntry("Contents", Ref(contents));
    PrintedSimply("Page", 2);
    PrintedSimply("", contents);
    BoxIsPrinted();
    ResourcesArePrinted(font);
  }

  lemma PageTextIs(contents: nat, font: nat)
    ensures Text(Page(contents, font)) ==
            "<< /Type /Page " + "/Parent " + (Numeral(2) + " 0 R") + " /MediaBox [0 0 595 842] " +
            "/Resources << /Font << " + "/F1 " + (Numeral(font) + " 0 R") + " >> >> " + "/Contents " +
            (Numeral(contents) + " 0 R") + " >>"
  {
    hide Numeral;
  }

  // ------------------------------------------------------------------ finding marks

  lemma {:induction false} MarkIsFound(before: string, mark: string, rest: string)
    requires mark != [] && forall i :: 0 <= i < |before| ==> before[i] != mark[0]
    ensures UpTo(before + (mark + rest), mark) == Some(before)
    ensures Behind(before + (mark + rest), mark) == Some(rest)
  {
    var s := before + (mark + rest);
    if before == [] {
      assert s == mark + rest;
      Parts(mark, rest);
    } else {
      assert s[0] == before[0] && s[1..] == before[1..] + (mark + rest);
      Unlike(s, mark, 0);
      MarkIsFound(before[1..], mark, rest);
      assert [before[0]] + before[1..] == before;
    }
  }

  // ------------------------------------------------------------------ reading the objects

  function SlotsOf(objects: seq<Object>): seq<Slot> {
    [Free] + Slots(Offsets(objects))
  }

  lemma ObjectAtReads(objects: seq<Object>, n: nat) returns (rest: string)
    requires 1 <= n <= |objects|
    ensures ObjectAt(File(objects), SlotsOf(objects), n) == Some(Text(objects[n - 1]) + rest)
    ensures StartsWith(rest, "\nendobj\n")
  {
    hide Text, File, Body, Chunk, ReadObject;
    ObjectIsAtItsOffset(objects, n);
    rest := ObjectReads(From(File(objects), Offset(objects, n)), n, Text(objects[n - 1]));
  }

  lemma DictionaryReads(objects: seq<Object>, n: nat, entries: seq<Member>)
    requires 1 <= n <= |objects| && Text(objects[n - 1]) == Print(Dict(entries)) && LegalValue(Dict(entries))
    ensures DictionaryAt(File(objects), SlotsOf(objects), n) == Some(entries)
  {
    hide Text, File, SlotsOf, ObjectAt, Print, LegalValue, ParseDictionary, UpTo;
    var rest := ObjectAtReads(objects, n);
    var mark := "\nendobj\n";
    assert rest == mark + rest[|mark|..];
    PrintHasNoBreaks(Dict(entries));
    MarkIsFound(Print(Dict(entries)), mark, rest[|mark|..]);
    DictionaryRoundTrip(entries);
  }

  // ------------------------------------------------------------------ the trailer

  predicate Lacks(s: string, c: char) {
    forall i :: 0 <= i < |s| ==> s[i] != c
  }

  lemma {:induction false} EntriesLack(offsets: seq<nat>)
    ensures Lacks(Entries(offsets), 't')
  {
    if offsets != [] {
      EntriesLack(offsets[1..]);
      assert Lacks(Padded(offsets[0], 10), 't');
    }
  }

  lemma TableLacks(offsets: seq<nat>)
    ensures Lacks(Table(offsets), 't')
  {
    EntriesLack(offsets);
    assert Lacks(Numeral(|offsets| + 1), 't') && Lacks("xref\n0 ", 't') && Lacks("\n", 't') && Lacks(FREE_ENTRY, 't');
    hide Entries, Numeral;
  }

  lemma TrailerShape(size: string, root: string, start: string)
    ensures "trailer\n<< /Size " + size + " " + "/Root " + (root + " 0 R") + " >>\nstartxref\n" + start + "\n%%EOF\n" ==
            "trailer\n" + (("<< " + ("/Size" + " " + size + " " + ("/Root" + " " + (root + " 0 R"))) + " >>") +
                           ("\nstartxref\n" + (start + "\n%%EOF\n")))
  {
    TrailerGlue();
    hide *;
    TrailerNest("trailer\n", "<< ", "/Size", " ", size, "/Root", root + " 0 R", " >>", "\nstartxref\n",
        start, "\n%%EOF\n");
  }

  lemma TrailerGlue()
    ensures "trailer\n" + "<< " + "/Size" + " " == "trailer\n<< /Size "
    ensures "/Root" + " " == "/Root " && " >>" + "\nstartxref\n" == " >>\nstartxref\n"
  {
  }

  lemma TrailerNest(a: string, b: string, c: string, blank: string, size: string, d: string, root: string, e: string,
                    f: string, start: string, g: string)
    ensures (a + b + c + blank) + size + blank + (d + blank) + root + (e + f) + start + g ==
            a + ((b + (c + blank + size + blank + (d + blank + root)) + e) + (f + (start + g)))
  {
  }

  lemma TrailerIsPrinted(size: nat, start: nat)
    ensures Trailer(size, start) ==
            "trailer\n" + (Print(Dict(TrailerEntries(size))) + ("\nstartxref\n" + (Numeral(start) + "\n%%EOF\n")))
  {
    var last := [Member("Root", Ref(1))];
    assert TrailerEntries(size) == [Member("Size", Int(size))] + last;
    hide *;
    TreeSlashes();
    PageSlashes();
    FontSlashes();
    TrailerTextIs(size, start);
    TrailerShape(Numeral(size), Numeral(1), Numeral(start));
    PrintedDictionary([Member("Size", Int(size))] + last);
    MoreEntries("Size", Int(size), last);
    LastEntry("Root", Ref(1));
    PrintedSimply("", size);
    PrintedSimply("", 1);
  }

  lemma TrailerTextIs(size: nat, start: nat)
    ensures Trailer(size, start) ==
            "trailer\n<< /Size " + Numeral(size) + " " + "/Root " + (Numeral(1) + " 0 R") + " >>\nstartxref\n" +
            Numeral(start) + "\n%%EOF\n"
  {
    hide Numeral;
  }

  lemma TrailerIsLegal(size: nat)
    ensures LegalValue(Dict(TrailerEntries(size))) && Lookup(TrailerEntries(size), "Size") == Some(Int(size))
    ensures ReferenceUnder(TrailerEntries(size), "Root") == Some(1)
  {
    LookupAt(TrailerEntries(size), 0);
    LookupAt(TrailerEntries(size), 1);
  }

  lemma TrailerReads(objects: seq<Object>)
    ensures ReadStart(File(objects)) == Some(|Body(objects)|)
    ensures ReadTrailer(File(objects), |Body(objects)|, |objects| + 1) == Some(TrailerEntries(|objects| + 1))
  {
    hide *;
    var size, start := |objects| + 1, |Body(objects)|;
    var own := Print(Dict(TrailerEntries(size)));
    var behind := Numeral(start) + "\n%%EOF\n";
    StartOfTable(objects);
    TrailerIsPrinted(size, start);
    TrailerIsLegal(size);
    TrailerBehindTable(Offsets(objects), own + ("\nstartxref\n" + behind));
    OwnPart(size, behind);
    DictionaryRoundTrip(TrailerEntries(size));
    TrailerIs(File(objects), start, size, own + ("\nstartxref\n" + behind), own, TrailerEntries(size));
  }

  lemma TrailerIs(file: string, start: nat, slots: nat, trailer: string, own: string, entries: seq<Member>)
    requires Behind(From(file, start), "trailer\n") == Some(trailer) && UpTo(trailer, "\nstartxref\n") == Some(own)
    requires ParseDictionary(own) == Some(entries) && Lookup(entries, "Size") == Some(Int(slots))
    ensures ReadTrailer(file, start, slots) == Some(entries)
  {
    hide Behind, UpTo, ParseDictionary, Lookup, From;
  }

  lemma TrailerBehindTable(offsets: seq<nat>, trailer: string)
    ensures Behind(Table(offsets) + ("trailer\n" + trailer), "trailer\n") == Some(trailer)
  {
    TableLacks(offsets);
    hide Table, Behind, UpTo;
    assert "trailer\n"[0] == 't';
    MarkIsFound(Table(offsets), "trailer\n", trailer);
  }

  lemma OwnPart(size: nat, behind: string)
    ensures var own := Print(Dict(TrailerEntries(size)));
            UpTo(own + ("\nstartxref\n" + behind), "\nstartxref\n") == Some(own)
  {
    TrailerIsLegal(size);
    PrintHasNoBreaks(Dict(TrailerEntries(size)));
    hide Print, TrailerEntries, Behind, UpTo, LegalValue;
    assert "\nstartxref\n"[0] == '\n';
    MarkIsFound(Print(Dict(TrailerEntries(size))), "\nstartxref\n", behind);
  }

  // ------------------------------------------------------------------ the pages

  lemma FontLookups()
    ensures HasType(FontEntries(), "Font") && Lookup(FontEntries(), "BaseFont") == Some(Name("Helvetica"))
    ensures Lookup(FontEntries(), "Subtype") == Some(Name("Type1"))
    ensures Lookup(FontEntries(), "Encoding") == Some(Name("WinAnsiEncoding"))
  {
    hide Lookup;
    var entries := FontEntries();
    LookupAt(entries, 0);
    LookupAt(entries, 1);
    LookupAt(entries, 2);
    LookupAt(entries, 3);
  }

  lemma LegalFontNames()
    ensures LegalName("Type") && LegalName("Font") && LegalName("Subtype") && LegalName("Type1") && LegalName("F1")
  {
  }

  lemma LegalFontValues()
    ensures LegalName("BaseFont") && LegalName("Helvetica") && LegalName("Encoding") && LegalName("WinAnsiEncoding")
  {
  }

  lemma LegalPageNames()
    ensures LegalName("Page") && LegalName("Parent") && LegalName("MediaBox") && LegalName("Resources")
    ensures LegalName("Contents")
  {
  }

  lemma LegalTreeNames()
    ensures LegalName("Type") && LegalName("Pages") && LegalName("Kids") && LegalName("Count") && LegalName("Catalog")
  {
  }

  lemma FontIsLegal()
    ensures LegalValue(Dict(FontEntries()))
  {
    hide LegalName;
    LegalFontNames();
    LegalFontValues();
  }

  lemma PageIsLegal(contents: nat, font: nat)
    ensures LegalValue(Dict(PageEntries(contents, font)))
  {
    hide LegalName;
    LegalFontNames();
    LegalPageNames();
    var fonts := Dict([Member("F1", Ref(font))]);
    assert LegalValue(fonts);
    var resources := Dict([Member("Font", fonts)]);
    assert LegalValue(resources);
    var box := Arr([Int(0), Int(0), Int(595), Int(842)]);
    assert LegalValue(box) && LegalValue(Name("Page")) && LegalValue(Ref(contents)) && LegalValue(Ref(2));
    assert PageEntries(contents, font) ==
           [Member("Type", Name("Page")), Member("Parent", Ref(2)), Member("MediaBox", box),
            Member("Resources", resources), Member("Contents", Ref(contents))];
  }

  lemma PageLookups(contents: nat, font: nat)
    ensures var page := PageEntries(contents, font);
            && HasType(page, "Page") && ReferenceUnder(page, "Parent") == Some(2)
            && ReadBox(page) == Some((595, 842)) && ReferenceUnder(page, "Contents") == Some(contents)
            && DictionaryUnder(page, "Resources") == Some([Member("Font", Dict([Member("F1", Ref(font))]))])
  {
    hide Lookup;
    var page := PageEntries(contents, font);
    LookupAt(page, 0);
    LookupAt(page, 1);
    LookupAt(page, 2);
    LookupAt(page, 3);
    LookupAt(page, 4);
  }

  lemma FontReads(streams: seq<string>, contents: nat)
    ensures var objects := Objects(streams);
            ReadFont(File(objects), SlotsOf(objects), PageEntries(contents, FontNumber(|streams|))) == Some("Helvetica")
  {
    hide *;
    var font := FontNumber(|streams|);
    PageLookups(contents, font);
    FontLookups();
    FontIsLegal();
    FirstTexts(streams);
    Sizes(streams);
    FontIsPrinted();
    DictionaryReads(Objects(streams), font, FontEntries());
    FontIsFound(File(Objects(streams)), SlotsOf(Objects(streams)), PageEntries(contents, font), font, FontEntries());
  }

  lemma Sizes(streams: seq<string>)
    ensures |Objects(streams)| == FontNumber(|streams|) == 3 + 2 * |streams|
  {
  }

  // The steps from a page to its font.
  lemma FontIsFound(file: string, slots: seq<Slot>, page: seq<Member>, number: nat, font: seq<Member>)
    requires DictionaryUnder(page, "Resources") == Some([Member("Font", Dict([Member("F1", Ref(number))]))])
    requires DictionaryAt(file, slots, number) == Some(font) && HasType(font, "Font")
    requires Lookup(font, "Subtype") == Some(Name("Type1")) && Lookup(font, "BaseFont") == Some(Name("Helvetica"))
    requires Lookup(font, "Encoding") == Some(Name("WinAnsiEncoding"))
    ensures ReadFont(file, slots, page) == Some("Helvetica")
  {
    LookupAt([Member("Font", Dict([Member("F1", Ref(number))]))], 0);
    LookupAt([Member("F1", Ref(number))], 0);
    hide Lookup, DictionaryAt;
  }

  lemma StreamIsRead(streams: seq<string>, index: nat) returns (text: string)
    requires index < |streams|
    ensures ObjectAt(File(Objects(streams)), SlotsOf(Objects(streams)), 4 + 2 * index) == Some(text)
    ensures ReadStream(text) == Some(streams[index])
  {
    hide *;
    PageTexts(streams, index);
    Sizes(streams);
    Printed(0, 0, streams[index], 0);
    var rest := ObjectAtReads(Objects(streams), 4 + index * 2);
    StreamReadsBack(streams[index], rest);
    text := StreamText(streams[index]) + rest;
  }

  // A4 paper with the standard font.
  function SheetOf(shown: seq<TextOperators.Placed>): Sheet {
    Sheet(595, 842, "Helvetica", shown)
  }

  /** The page object numbered 3 + 2 * index belongs to the page tree, has a font and shows the
      text of the page's own stream. */
  lemma PagesReadBack(streams: seq<string>, index: nat, shown: seq<TextOperators.Placed>)
    requires index < |streams| && TextOperators.ReadText(streams[index]) == Some(shown) && OnlyF1(shown)
    ensures var objects := Objects(streams);
            ReadPage(File(objects), SlotsOf(objects), 2, 3 + 2 * index) == Some(SheetOf(shown))
  {
    hide *;
    var font := FontNumber(|streams|);
    PageTexts(streams, index);
    Sizes(streams);
    PageIsPrinted(4 + index * 2, font);
    PageLookups(4 + index * 2, font);
    PageIsLegal(4 + index * 2, font);
    DictionaryReads(Objects(streams), 3 + index * 2, PageEntries(4 + index * 2, font));
    FontReads(streams, 4 + index * 2);
    var text := StreamIsRead(streams, index);
    PageIsFound(File(Objects(streams)), SlotsOf(Objects(streams)), 2, 3 + 2 * index, PageEntries(4 + index * 2, font),
        4 + 2 * index, text, streams[index], shown);
  }

  // The steps from a page's number to its sheet.
  lemma PageIsFound(file: string, slots: seq<Slot>, parent: nat, number: nat, page: seq<Member>, contents: nat,
                    text: string, stream: string, shown: seq<TextOperators.Placed>)
    requires DictionaryAt(file, slots, number) == Some(page) && HasType(page, "Page")
    requires ReferenceUnder(page, "Parent") == Some(parent) && ReadBox(page) == Some((595, 842))
    requires ReadFont(file, slots, page) == Some("Helvetica") && ReferenceUnder(page, "Contents") == Some(contents)
    requires ObjectAt(file, slots, contents) == Some(text) && ReadStream(text) == Some(stream)
    requires TextOperators.ReadText(stream) == Some(shown) && OnlyF1(shown)
    ensures ReadPage(file, slots, parent, number) == Some(SheetOf(shown))
  {
    hide DictionaryAt, ReferenceUnder, ReadBox, ReadFont, ObjectAt, ReadStream, HasType, OnlyF1, TextOperators.ReadText;
  }

  // What a reader is to see: every page's lines, each at its place, and each page with its footer.
  function ShownOn(lines: seq<string>, normal: string -> string, index: nat): seq<TextOperators.Placed>
    requires index < DocumentLines.PageCount(|lines|)
  {
    var pages := DocumentLines.Pages(lines);
    var page := pages[index];
    seq(|page|, k requires 0 <= k < |page| =>
      TextOperators.Placed(Escape.Substituted(normal(page[k]), Ascii.Image), 48, 790 - 14 * k, "/F1", 9)) +
    [TextOperators.Placed("Veza Learning Cloud | Page " + Numeral(index + 1) + " of " + Numeral(|pages|), 48, 28,
                          "/F1", 8)]
  }

  function Shown(lines: seq<string>, normal: string -> string): (sheets: seq<Sheet>)
    ensures |sheets| == DocumentLines.PageCount(|lines|)
  {
    seq(DocumentLines.PageCount(|lines|), i requires 0 <= i < DocumentLines.PageCount(|lines|) =>
      SheetOf(ShownOn(lines, normal, i)))
  }

  lemma ShownInPlace(page: seq<string>, normal: string -> string)
    ensures var texts := PageContent.Shown(page, normal);
            seq(|texts|, k requires 0 <= k < |texts| => TextOperators.Placed(texts[k], 48, 790 - 14 * k, "/F1", 9)) ==
            seq(|page|, k requires 0 <= k < |page| =>
              TextOperators.Placed(Escape.Substituted(normal(page[k]), Ascii.Image), 48, 790 - 14 * k, "/F1", 9))
  {
    hide Ascii.Printed, Escape.Substituted;
    forall k | 0 <= k < |page| {
      Ascii.PassesAreOne(normal(page[k]));
    }
  }

  lemma PageOf(lines: seq<string>, normal: string -> string, index: nat)
    requires index < DocumentLines.PageCount(|lines|)
    ensures TextOperators.ReadText(Streams(lines, normal)[index]) == Some(ShownOn(lines, normal, index))
    ensures OnlyF1(ShownOn(lines, normal, index))
  {
    hide PageContent.ContentStream, TextOperators.ReadText, Streams, Ascii.Printed, Escape.Substituted;
    var pages := DocumentLines.Pages(lines);
    StreamOfPage(lines, normal, index);
    PageContent.ShownHasNoReturns(pages[index], normal);
    PageContent.PageShowsItsLines(PageContent.Shown(pages[index], normal), index + 1, |pages|);
    ShownInPlace(pages[index], normal);
  }

  lemma {:induction false} KidsShow(lines: seq<string>, normal: string -> string, from: nat)
    requires from <= DocumentLines.PageCount(|lines|)
    ensures var objects := Objects(Streams(lines, normal));
            ReadPages(File(objects), SlotsOf(objects), 2, KidsOf(DocumentLines.PageCount(|lines|))[from..]) ==
            Some(Shown(lines, normal)[from..])
    decreases DocumentLines.PageCount(|lines|) - from
  {
    hide File, Objects, SlotsOf, ReadPage, ShownOn, Streams;
    var kids, shown := KidsOf(DocumentLines.PageCount(|lines|)), Shown(lines, normal);
    if from < |kids| {
      PageOf(lines, normal, from);
      PagesReadBack(Streams(lines, normal), from, ShownOn(lines, normal, from));
      KidsShow(lines, normal, from + 1);
      assert kids[from..][0] == Ref(3 + 2 * from) && kids[from..][1..] == kids[from + 1..];
      assert shown[from..] == [SheetOf(ShownOn(lines, normal, from))] + shown[from + 1..];
    }
  }

  lemma TreeInitials(pages: nat)
    ensures DistinctInitials(TreeEntries(pages)) && DistinctInitials(CatalogEntries())
  {
  }

  lemma TreeLookups(pages: nat)
    ensures ReadKids(TreeEntries(pages)) == Some(KidsOf(pages)) && LegalValue(Dict(TreeEntries(pages)))
  {
    hide Lookup, LegalName;
    LegalTreeNames();
    TreeInitials(pages);
    hide DistinctInitials;
    var tree := TreeEntries(pages);
    LookupAt(tree, 0);
    LookupAt(tree, 1);
    LookupAt(tree, 2);
    assert LegalValue(tree[0].value) && LegalValue(tree[1].value) && LegalValue(tree[2].value);
  }

  lemma CatalogLookups()
    ensures HasType(CatalogEntries(), "Catalog") && ReferenceUnder(CatalogEntries(), "Pages") == Some(2)
    ensures LegalValue(Dict(CatalogEntries()))
  {
    hide Lookup, LegalName;
    LegalTreeNames();
    TreeInitials(0);
    hide DistinctInitials;
    LookupAt(CatalogEntries(), 0);
    LookupAt(CatalogEntries(), 1);
    assert LegalValue(CatalogEntries()[0].value) && LegalValue(CatalogEntries()[1].value);
  }

  lemma {:induction false} BodyStarts(objects: seq<Object>)
    ensures StartsWith(Body(objects), "%PDF-1.7\n")
  {
    hide Text, Chunk;
    if objects != [] {
      BodyStarts(objects[..|objects| - 1]);
    }
  }

  lemma FileStarts(objects: seq<Object>)
    ensures StartsWith(File(objects), "%PDF-1.7\n")
  {
    hide Body, Table, Trailer;
    BodyStarts(objects);
  }

  // The steps from the file to the sheets.
  lemma Walk(file: string, slots: seq<Slot>, start: nat, trailer: seq<Member>, catalog: seq<Member>, tree: seq<Member>,
             kids: seq<PdfValue>)
    requires ReadXref(file) == Some(slots) && ReadStart(file) == Some(start)
    requires ReadTrailer(file, start, |slots|) == Some(trailer) && ReferenceUnder(trailer, "Root") == Some(1)
    requires DictionaryAt(file, slots, 1) == Some(catalog) && ReferenceUnder(catalog, "Pages") == Some(2)
    requires DictionaryAt(file, slots, 2) == Some(tree) && ReadKids(tree) == Some(kids)
    requires StartsWith(file, "%PDF-1.7\n") && HasType(catalog, "Catalog")
    ensures ReadDocument(file) == ReadPages(file, slots, 2, kids)
  {
    hide ReadXref, ReadStart, ReadTrailer, ReferenceUnder, DictionaryAt, ReadKids, StartsWith, HasType, ReadPages;
  }

  /** From the finished file alone, a reader that walks from the trailer to the pages sees exactly
      the document's pages in order, on A4 paper, with each line and each footer at its place, if
      and only if the offsets fit the table. */
  lemma DocumentReadsBack(lines: seq<string>, normal: string -> string)
    ensures var objects := Objects(Streams(lines, normal));
            ReadDocument(File(objects)) == if AllFit(Offsets(objects)) then Some(Shown(lines, normal)) else None
  {
    hide *;
    var pages := DocumentLines.PageCount(|lines|);
    var objects := Objects(Streams(lines, normal));
    PagesAreStreams(lines, normal);
    XrefReadsBack(objects);
    if AllFit(Offsets(objects)) {
      Sizes(Streams(lines, normal));
      FirstTexts(Streams(lines, normal));
      SlotsAre(objects);
      TrailerReads(objects);
      TrailerIsLegal(|objects| + 1);
      CatalogIsPrinted();
      CatalogLookups();
      DictionaryReads(objects, 1, CatalogEntries());
      TreeIsPrinted(pages);
      TreeLookups(pages);
      DictionaryReads(objects, 2, TreeEntries(pages));
      FileStarts(objects);
      Walk(File(objects), SlotsOf(objects), |Body(objects)|, TrailerEntries(|objects| + 1), CatalogEntries(),
          TreeEntries(pages), KidsOf(pages));
      KidsShow(lines, normal, 0);
    } else {
      NoTable(File(objects));
    }
  }

  lemma PagesAreStreams(lines: seq<string>, normal: string -> string)
    ensures var pages := DocumentLines.PageCount(|lines|);
            && pages >= 1 && |Streams(lines, normal)| == pages
            && KidsOf(pages)[0..] == KidsOf(pages) && Shown(lines, normal)[0..] == Shown(lines, normal)
  {
  }

  lemma SlotsAre(objects: seq<Object>)
    ensures SlotsOf(objects) == [Free] + Slots(Offsets(objects)) && |SlotsOf(objects)| == |objects| + 1
  {
  }

  lemma NoTable(file: string)
    requires ReadXref(file).None?
    ensures ReadDocument(file).None?
  {
  }
}
