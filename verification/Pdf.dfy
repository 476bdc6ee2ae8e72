// The PDF writer: objects, cross-reference table and trailer.
module Pdf {
  import opened Decimal
  import opened PageContent
  import DocumentLines

  // ------------------------------------------------------------------ objects

  datatype Object = Catalog | Pages(count: nat) | Page(contents: nat, font: nat) | Stream(stream: string) | Font

  function Reference(n: nat): string {
    Numeral(n) + " 0 R"
  }

  // References to the page objects 3, 5, ... of the first pages.
  function References(pages: nat): (references: seq<string>)
    ensures |references| == pages
  {
    seq(pages, i requires 0 <= i => Reference(3 + 2 * i))
  }

  function PagesText(pageReferences: seq<string>, pages: nat): string {
    "<< /Type /Pages " + "/Kids [" + DocumentLines.JoinWith(" ", pageReferences) + "] " + "/Count " + Numeral(pages) +
        " >>"
  }

  function PageText(contents: nat, font: nat): string {
    "<< /Type /Page " + "/Parent " + Reference(2) + " /MediaBox [0 0 595 842] " + "/Resources << /Font << " +
    "/F1 " + Reference(font) + " >> >> " + "/Contents " + Reference(contents) + " >>"
  }

  function StreamText(stream: string): string {
    "<< /Length " + Numeral(|stream|) + " >>\nstream\n" + stream + "\nendstream"
  }

  function Text(o: Object): string {
    match o
    case Catalog => "<< /Type /Catalog " + "/Pages " + Reference(2) + " >>"
    case Pages(count) => PagesText(References(count), count)
    case Page(contents, font) => PageText(contents, font)
    case Stream(stream) => StreamText(stream)
    case Font => "<< /Type /Font " + "/Subtype /Type1 /BaseFont /Helvetica /Encoding /WinAnsiEncoding >>"
  }

  function FontNumber(pages: nat): nat {
    3 + pages * 2
  }

  // Object n of a document with the given page streams.
  function ObjectOf(streams: seq<string>, n: nat): Object
    requires 1 <= n <= FontNumber(|streams|)
  {
    if n == 1 then Catalog
    else if n == 2 then Pages(|streams|)
    else if n == FontNumber(|streams|) then Font
    else if n % 2 == 1 then Page(n + 1, FontNumber(|streams|))
    else Stream(streams[(n - 4) / 2])
  }

  function Objects(streams: seq<string>): (objects: seq<Object>)
    ensures |objects| == FontNumber(|streams|)
  {
    seq(FontNumber(|streams|), i requires 0 <= i < FontNumber(|streams|) => ObjectOf(streams, i + 1))
  }

  // ------------------------------------------------------------------ the file

  const HEADER: string := "%PDF-1.7\n%Veza\n"
  const FREE_ENTRY: string := "0000000000 65535 f \n"

  function Chunk(n: nat, text: string): string {
    Numeral(n) + " 0 obj\n" + text + "\nendobj\n"
  }

  // The file up to and including the given objects, numbered from 1.
  function Body(objects: seq<Object>): string {
    if objects == [] then HEADER else Body(objects[..|objects| - 1]) + Chunk(|objects|, Text(objects[|objects| - 1]))
  }

  // Where object n starts.
  function Offset(objects: seq<Object>, n: nat): nat
    requires 1 <= n <= |objects|
  {
    |Body(objects[..n - 1])|
  }

  function Offsets(objects: seq<Object>): (offsets: seq<nat>)
    ensures |offsets| == |objects|
  {
    seq(|objects|, i requires 0 <= i < |objects| => Offset(objects, i + 1))
  }

  // One line of the table with its line feed.
  function Entry(offset: nat): string {
    Padded(offset, 10) + " 00000 n \n"
  }

  function Entries(offsets: seq<nat>): string {
    if offsets == [] then [] else Entry(offsets[0]) + Entries(offsets[1..])
  }

  function Table(offsets: seq<nat>): string {
    "xref\n0 " + Numeral(|offsets| + 1) + "\n" + FREE_ENTRY + Entries(offsets)
  }

  function Trailer(size: nat, xrefOffset: nat): string {
    "trailer\n<< /Size " + Numeral(size) + " " + "/Root " + Reference(1) + " >>\nstartxref\n" + Numeral(xrefOffset) +
        "\n%%EOF\n"
  }

  function File(objects: seq<Object>): string {
    Body(objects) + Table(Offsets(objects)) + Trailer(|objects| + 1, |Body(objects)|)
  }

  // The streams of a document's pages.
  function Streams(lines: seq<string>, normal: string -> string): (streams: seq<string>)
    ensures |streams| == DocumentLines.PageCount(|lines|)
  {
    var pages := DocumentLines.Pages(lines);
    seq(|pages|, i requires 0 <= i < |pages| => ContentStream(Shown(pages[i], normal), i + 1, |pages|))
  }

  // ------------------------------------------------------------------ the writer

  lemma {:induction false} EntriesNext(offsets: seq<nat>, offset: nat)
    ensures Entries(offsets + [offset]) == Entries(offsets) + Entry(offset)
  {
    if offsets == [] {
      assert [offset][1..] == [];
      assert Entries([offset]) == Entry(offset) + [];
    } else {
      EntriesNext(offsets[1..], offset);
      assert (offsets + [offset])[1..] == offsets[1..] + [offset];
      assert Entry(offsets[0]) + (Entries(offsets[1..]) + Entry(offset)) == Entry(offsets[0]) +
             Entries(offsets[1..]) + Entry(offset);
    }
  }

  // `objects` is the finished table of the document, numbered from 1.
  ghost predicate Numbered(objects: map<nat, string>, listed: seq<Object>) {
    forall n: nat :: 1 <= n <= |listed| ==> n in objects && objects[n] == Text(listed[n - 1])
  }

  // Writes the objects and notes where each starts.
  method WriteObjects(objects: map<nat, string>, fontObject: nat, ghost listed: seq<Object>) returns (body: string,
                      offsets: seq<nat>)
    requires |listed| == fontObject && Numbered(objects, listed)
    ensures body == Body(listed)
    ensures |offsets| == fontObject + 1 && offsets[1..] == Offsets(listed)
  {
    hide Text;
    body := HEADER;
    offsets := [0];
    for objectNumber := 1 to fontObject + 1
      invariant body == Body(listed[..objectNumber - 1])
      invariant |offsets| == objectNumber && forall n :: 1 <= n < objectNumber ==> offsets[n] == Offset(listed, n)
    {
      offsets := offsets + [|body|];
      var chunk := Chunk(objectNumber, objects[objectNumber]);
      assert listed[..objectNumber][..objectNumber - 1] == listed[..objectNumber - 1];
      body := body + chunk;
    }
    assert listed[..fontObject] == listed;
  }

  method WriteTable(offsets: seq<nat>, fontObject: nat) returns (xref: string)
    requires |offsets| == fontObject + 1
    ensures xref == Table(offsets[1..])
  {
    var entries := "";
    for objectNumber := 1 to fontObject + 1
      invariant entries == Entries(offsets[1..objectNumber])
    {
      EntriesNext(offsets[1..objectNumber], offsets[objectNumber]);
      assert offsets[1..objectNumber + 1] == offsets[1..objectNumber] + [offsets[objectNumber]];
      entries := entries + Entry(offsets[objectNumber]);
    }
    assert offsets[1..fontObject + 1] == offsets[1..];
    xref := "xref\n0 " + Numeral(fontObject + 1) + "\n" + FREE_ENTRY + entries;
  }

  // The objects of the catalogue and of the first `index` pages.
  ghost predicate Collected(objects: map<nat, string>, listed: seq<Object>, index: nat) {
    && 3 + index * 2 <= |listed|
    && (forall n: nat :: n in objects <==> n == 1 || 3 <= n < 3 + index * 2)
    && (forall n: nat :: n in objects ==> objects[n] == Text(listed[n - 1]))
  }

  lemma CollectPage(objects: map<nat, string>, listed: seq<Object>, index: nat, page: Object, stream: Object)
    requires Collected(objects, listed, index) && 5 + index * 2 <= |listed|
    requires page == listed[2 + index * 2] && stream == listed[3 + index * 2]
    ensures Collected(objects[3 + index * 2 := Text(page)][4 + index * 2 := Text(stream)], listed, index + 1)
  {
    hide Text;
    var first := objects[3 + index * 2 := Text(page)];
    CollectOne(objects, listed, 3 + index * 2);
    CollectOne(first, listed, 4 + index * 2);
  }

  // All numbers below `next` but 2.
  ghost predicate CollectedTo(objects: map<nat, string>, listed: seq<Object>, next: nat) {
    && 3 <= next <= |listed| + 1
    && (forall n: nat :: n in objects <==> n == 1 || 3 <= n < next)
    && (forall n: nat :: n in objects ==> n <= |listed| && objects[n] == Text(listed[n - 1]))
  }

  lemma CollectOne(objects: map<nat, string>, listed: seq<Object>, next: nat)
    requires CollectedTo(objects, listed, next) && next <= |listed|
    ensures CollectedTo(objects[next := Text(listed[next - 1])], listed, next + 1)
  {
    hide Text;
  }

  lemma PageTexts(streams: seq<string>, index: nat)
    requires index < |streams|
    ensures Objects(streams)[2 + index * 2] == Page(4 + index * 2, FontNumber(|streams|))
    ensures Objects(streams)[3 + index * 2] == Stream(streams[index])
  {
  }

  lemma FirstTexts(streams: seq<string>)
    ensures var listed := Objects(streams);
            listed[0] == Catalog && listed[1] == Pages(|streams|) && listed[|listed| - 1] == Font
  {
  }

  lemma Printed(contents: nat, font: nat, stream: string, count: nat)
    ensures Text(Page(contents, font)) == PageText(contents, font)
    ensures Text(Stream(stream)) == StreamText(stream)
    ensures Text(Pages(count)) == PagesText(References(count), count)
  {
  }

  lemma NextReference(pages: nat)
    ensures References(pages + 1) == References(pages) + [Reference(3 + 2 * pages)]
  {
  }

  lemma CollectNothing(listed: seq<Object>)
    requires |listed| >= 3 && listed[0] == Catalog
    ensures Collected(map[1 := Text(Catalog)], listed, 0)
  {
    hide Text;
  }

  lemma StreamOfPage(lines: seq<string>, normal: string -> string, index: nat)
    requires index < DocumentLines.PageCount(|lines|)
    ensures Streams(lines, normal)[index] ==
            ContentStream(Shown(DocumentLines.Pages(lines)[index], normal), index + 1, |DocumentLines.Pages(lines)|)
  {
    hide ContentStream;
  }

  // One more page: its object, its stream and the reference to it.
  lemma NextPage(objects: map<nat, string>, streams: seq<string>, index: nat)
    requires index < |streams| && Collected(objects, Objects(streams), index)
    ensures var page, stream := Page(4 + index * 2, FontNumber(|streams|)), Stream(streams[index]);
            Collected(objects[3 + index * 2 := Text(page)][4 + index * 2 := Text(stream)], Objects(streams), index + 1)
  {
    hide Text;
    PageTexts(streams, index);
    CollectPage(objects, Objects(streams), index, Page(4 + index * 2, FontNumber(|streams|)), Stream(streams[index]));
  }

  // Collects the objects of all the pages.
  method CollectPages(lines: seq<string>, normal: string -> string) returns (objects: map<nat, string>,
                      pageReferences: seq<string>)
    ensures pageReferences == References(DocumentLines.PageCount(|lines|))
    ensures Collected(objects, Objects(Streams(lines, normal)), DocumentLines.PageCount(|lines|))
  {
    hide Text, PageText, StreamText, ContentStream, Shown, Collected, References, Reference, Objects, Streams;
    var pages := DocumentLines.Pages(lines);
    ghost var streams := Streams(lines, normal);
    ghost var listed := Objects(streams);
    FirstTexts(streams);
    CollectNothing(listed);
    assert References(0) == [];
    objects := map[1 := Text(Catalog)];
    pageReferences := [];
    for index := 0 to |pages|
      invariant pageReferences == References(index)
      invariant Collected(objects, listed, index)
    {
      var pageObject := 3 + index * 2;
      pageReferences := pageReferences + [Reference(pageObject)];
      var stream := ContentStream(Shown(pages[index], normal), index + 1, |pages|);
      StreamOfPage(lines, normal, index);
      NextReference(index);
      Printed(pageObject + 1, FontNumber(|pages|), stream, 0);
      NextPage(objects, streams, index);
      objects := objects[pageObject := PageText(pageObject + 1, FontNumber(|pages|))];
      objects := objects[pageObject + 1 := StreamText(stream)];
    }
  }

  lemma AllNumbered(objects: map<nat, string>, listed: seq<Object>, pages: nat, second: string, last: string)
    requires Collected(objects, listed, pages) && |listed| == FontNumber(pages)
    requires second == Text(listed[1]) && last == Text(listed[|listed| - 1])
    ensures Numbered(objects[2 := second][FontNumber(pages) := last], listed)
  {
    hide Text;
  }

  /** The writer's loops produce the file of exactly the document's objects; every number up to
      the font's is in the table, so looking an object up never fails. */
  method RenderPdf(lines: seq<string>, normal: string -> string) returns (file: string)
    ensures file == File(Objects(Streams(lines, normal)))
  {
    hide Text, PagesText, ContentStream, Body, Table, Offsets, Trailer, Streams, Objects, References, Collected,
        Numbered;
    ghost var listed := Objects(Streams(lines, normal));
    FirstTexts(Streams(lines, normal));
    var pages := DocumentLines.PageCount(|lines|);
    var fontObject := FontNumber(pages);
    var objects, pageReferences := CollectPages(lines, normal);
    Printed(0, 0, [], pages);
    AllNumbered(objects, listed, pages, PagesText(pageReferences, pages), Text(Font));
    objects := objects[2 := PagesText(pageReferences, pages)];
    objects := objects[fontObject := Text(Font)];
    var body, offsets := WriteObjects(objects, fontObject, listed);
    var xref := WriteTable(offsets, fontObject);
    file := body + xref + Trailer(fontObject + 1, |body|);
  }
}
