/**
  A reader of the written file, after sections 7.3.8, 7.5.4 and 7.5.5 of ISO 32000-1: it finds
  the table from the end of the file, the objects from the table, and a stream's bytes from its
  length.
*/
module PdfReader {
  import opened Wrappers
  import opened Decimal
  import opened Strings
  import opened Pdf

  // ------------------------------------------------------------------ small readers

  predicate EndsWith(s: string, suffix: string) {
    |suffix| <= |s| && s[|s| - |suffix|..] == suffix
  }

  // The file from a position on; nothing past its end.
  function From(file: string, position: nat): string {
    if position <= |file| then file[position..] else []
  }

  lemma Nest6(a: string, b: string, c: string, d: string, e: string, f: string)
    ensures (a + b + c + d + e) + f == a + (b + (c + (d + (e + f))))
  {
  }

  function DigitsAhead(s: string): (n: nat)
    ensures n <= |s|
  {
    if s == [] || !IsDigit(s[0]) then 0 else 1 + DigitsAhead(s[1..])
  }

  function DigitsBehind(s: string): (n: nat)
    ensures n <= |s|
  {
    if s == [] || !IsDigit(s[|s| - 1]) then 0 else 1 + DigitsBehind(s[..|s| - 1])
  }

  predicate AllDigits(s: string) {
    forall i :: 0 <= i < |s| ==> IsDigit(s[i])
  }

  lemma {:induction false} CountAhead(digits: string, rest: string)
    requires AllDigits(digits) && (rest == [] || !IsDigit(rest[0]))
    ensures DigitsAhead(digits + rest) == |digits|
  {
    if digits == [] {
      assert digits + rest == rest;
    } else {
      CountAhead(digits[1..], rest);
      assert (digits + rest)[1..] == digits[1..] + rest;
    }
  }

  lemma {:induction false} CountBehind(before: string, digits: string)
    requires AllDigits(digits) && (before == [] || !IsDigit(before[|before| - 1]))
    ensures DigitsBehind(before + digits) == |digits|
  {
    if digits == [] {
      assert before + digits == before;
    } else {
      CountBehind(before, digits[..|digits| - 1]);
      assert (before + digits)[..|before + digits| - 1] == before + digits[..|digits| - 1];
    }
  }

  // A number, the text that must follow it, and the rest.
  function ReadNumber(s: string, after: string): Option<(nat, string)> {
    var k := DigitsAhead(s);
    var value := Value(s[..k]);
    if value.Some? && StartsWith(s[k..], after) then Some((value.value, s[k + |after|..])) else None
  }

  lemma ReadNumeral(n: nat, after: string, rest: string)
    requires after != [] && !IsDigit(after[0])
    ensures ReadNumber(Numeral(n) + (after + rest), after) == Some((n, rest))
  {
    hide Numeral, Value, DigitsAhead;
    NumeralRoundTrip(n);
    CountAhead(Numeral(n), after + rest);
    Parts(Numeral(n), after + rest);
    Parts(after, rest);
    Parts(Numeral(n) + after, rest);
    assert Numeral(n) + (after + rest) == (Numeral(n) + after) + rest;
  }

  // ------------------------------------------------------------------ the cross-reference table

  datatype Slot = Free | InUse(offset: nat)

  const ENTRY_LENGTH: nat := 20

  // One entry of exactly twenty bytes: ten digits, a space, five digits, a space, the kind and
  // a two-byte end of line.
  function ReadEntry(s: string): Option<Slot> {
    if |s| < ENTRY_LENGTH || s[10] != ' ' || s[16] != ' ' || s[18] != ' ' || s[19] != '\n' then None
    else
      var offset, generation := Value(s[..10]), Value(s[11..16]);
      if offset.None? || generation.None? then None
      else if s[17] == 'f' && generation.value == 65535 then Some(Free)
      else if s[17] == 'n' && generation.value == 0 then Some(InUse(offset.value))
      else None
  }

  function ReadEntries(s: string, count: nat): Option<seq<Slot>> {
    if count == 0 then if StartsWith(s, "trailer\n") then Some([]) else None
    else
      var first := ReadEntry(s);
      if first.None? then None
      else
        var others := ReadEntries(s[ENTRY_LENGTH..], count - 1);
        if others.None? then None else Some([first.value] + others.value)
  }

  function ReadTable(s: string): Option<seq<Slot>> {
    if !StartsWith(s, "xref\n0 ") then None
    else
      var size := ReadNumber(s[7..], "\n");
      if size.None? then None else ReadEntries(size.value.1, size.value.0)
  }

  // The number before the end-of-file marker, after the keyword `startxref`.
  function ReadStart(file: string): Option<nat> {
    if !EndsWith(file, "\n%%EOF\n") then None
    else
      var head := file[..|file| - 7];
      var k := DigitsBehind(head);
      if EndsWith(head[..|head| - k], "startxref\n") then Value(head[|head| - k..]) else None
  }

  function ReadXref(file: string): Option<seq<Slot>> {
    var start := ReadStart(file);
    if start.None? then None else ReadTable(From(file, start.value))
  }

  // ------------------------------------------------------------------ reading what was written

  predicate Fits(offset: nat) {
    offset < Power10(10)
  }

  lemma FieldsRead(offset: string, generation: string, kind: char, rest: string)
    requires |offset| == 10 && |generation| == 5 && Value(offset).Some?
    requires (kind == 'f' && Value(generation) == Some(65535)) || (kind == 'n' && Value(generation) == Some(0))
    ensures ReadEntry(offset + " " + generation + " " + [kind] + " \n" + rest) ==
            Some(if kind == 'f' then Free else InUse(Value(offset).value))
  {
    hide Value;
    var s := offset + " " + generation + " " + [kind] + " \n" + rest;
    assert s[..10] == offset && s[11..16] == generation;
  }

  /** An entry has twenty bytes exactly while its offset has at most ten digits; then it reads
      back as that offset, and otherwise it cannot be read. */
  lemma EntryReads(offset: nat, rest: string)
    ensures |Entry(offset)| == ENTRY_LENGTH <==> Fits(offset)
    ensures ReadEntry(Entry(offset) + rest) == if Fits(offset) then Some(InUse(offset)) else None
  {
    hide *;
    PaddedWidth(offset);
    EntryParts(offset);
    if Fits(offset) {
      PaddedRoundTrip(offset, 10);
      ZerosReadAsZero();
      FieldsRead(Padded(offset, 10), "00000", 'n', rest);
    } else {
      LongEntry(Padded(offset, 10), " 00000 n \n" + rest);
      assert Entry(offset) + rest == Padded(offset, 10) + (" 00000 n \n" + rest);
    }
  }

  lemma PaddedWidth(offset: nat)
    ensures |Padded(offset, 10)| >= 10 && (|Padded(offset, 10)| == 10 <==> Fits(offset))
    ensures forall i :: 0 <= i < |Padded(offset, 10)| ==> IsDigit(Padded(offset, 10)[i])
  {
    NumeralWidth(offset, 10);
  }

  lemma EntryParts(offset: nat)
    ensures Entry(offset) == Padded(offset, 10) + " 00000 n \n"
    ensures Entry(offset) == Padded(offset, 10) + " " + "00000" + " " + ['n'] + " \n"
    ensures |Entry(offset)| == ENTRY_LENGTH <==> |Padded(offset, 10)| == 10
  {
    hide Padded;
  }

  lemma ZerosReadAsZero()
    ensures Value("00000") == Some(0)
  {
    ZerosAreZero(5);
    assert Zeros(5) == "00000";
  }

  lemma LongEntry(digits: string, rest: string)
    requires |digits| > 10 && forall i :: 0 <= i < |digits| ==> IsDigit(digits[i])
    ensures ReadEntry(digits + rest) == None
  {
    hide Value;
    assert (digits + rest)[10] == digits[10];
  }

  function Slots(offsets: seq<nat>): (slots: seq<Slot>)
    ensures |slots| == |offsets|
  {
    seq(|offsets|, i requires 0 <= i < |offsets| => InUse(offsets[i]))
  }

  predicate AllFit(offsets: seq<nat>) {
    forall i :: 0 <= i < |offsets| ==> Fits(offsets[i])
  }

  lemma {:induction false} EntriesRead(offsets: seq<nat>, rest: string)
    requires StartsWith(rest, "trailer\n")
    ensures ReadEntries(Entries(offsets) + rest, |offsets|) == if AllFit(offsets) then Some(Slots(offsets)) else None
  {
    hide ReadEntry, Entry, Fits, AllFit, Slots;
    AllFitFromFront(offsets);
    if offsets == [] {
      assert Entries(offsets) + rest == rest;
    } else {
      var others := Entries(offsets[1..]) + rest;
      assert Entries(offsets) + rest == Entry(offsets[0]) + others;
      EntryReads(offsets[0], others);
      EntriesRead(offsets[1..], rest);
      if Fits(offsets[0]) {
        Parts(Entry(offsets[0]), others);
      }
    }
  }

  lemma AllFitFromFront(offsets: seq<nat>)
    ensures AllFit(offsets) <==> offsets == [] || (Fits(offsets[0]) && AllFit(offsets[1..]))
    ensures Slots(offsets) == if offsets == [] then [] else [InUse(offsets[0])] + Slots(offsets[1..])
  {
    hide Fits;
    if offsets != [] && Fits(offsets[0]) && AllFit(offsets[1..]) {
      forall i | 0 <= i < |offsets|
        ensures Fits(offsets[i])
      {
        assert i > 0 ==> offsets[1..][i - 1] == offsets[i];
      }
    }
  }

  lemma FreeEntryReads(rest: string)
    ensures ReadEntry(FREE_ENTRY + rest) == Some(Free)
  {
    ZerosAreZero(10);
    assert Zeros(10) == "0000000000";
    SixtyFiveThousand();
    hide *;
    FieldsRead("0000000000", "65535", 'f', rest);
    assert FREE_ENTRY == "0000000000" + " " + "65535" + " " + ['f'] + " \n";
  }

  // The generation number of the free entry.
  lemma SixtyFiveThousand()
    ensures Value("65535") == Some(65535)
  {
    assert Numeral(6) == "6" && Numeral(65) == Numeral(6) + "5" == "65";
    assert Numeral(655) == Numeral(65) + "5" == "655" && Numeral(6553) == Numeral(655) + "3" == "6553";
    assert Numeral(65535) == Numeral(6553) + "5" == "65535";
    NumeralRoundTrip(65535);
  }

  lemma TableReads(offsets: seq<nat>, rest: string)
    requires StartsWith(rest, "trailer\n")
    ensures ReadTable(Table(offsets) + rest) == if AllFit(offsets) then Some([Free] + Slots(offsets)) else None
  {
    hide ReadEntry, Numeral, Entries;
    var entries := FREE_ENTRY + (Entries(offsets) + rest);
    Nest6("xref\n0 ", Numeral(|offsets| + 1), "\n", FREE_ENTRY, Entries(offsets), rest);
    Parts("xref\n0 ", Numeral(|offsets| + 1) + ("\n" + entries));
    ReadNumeral(|offsets| + 1, "\n", entries);
    FreeEntryReads(Entries(offsets) + rest);
    Parts(FREE_ENTRY, Entries(offsets) + rest);
    EntriesRead(offsets, rest);
  }

  lemma StartReads(before: string, start: nat)
    ensures ReadStart(before + "startxref\n" + Numeral(start) + "\n%%EOF\n") == Some(start)
  {
    var head := before + "startxref\n" + Numeral(start);
    var file := head + "\n%%EOF\n";
    assert file[|file| - 7..] == "\n%%EOF\n" && file[..|file| - 7] == head;
    CountBehind(before + "startxref\n", Numeral(start));
    var k := |Numeral(start)|;
    assert head[|head| - k..] == Numeral(start) && head[..|head| - k] == before + "startxref\n";
    assert EndsWith(before + "startxref\n", "startxref\n");
    NumeralRoundTrip(start);
  }

  lemma TrailerParts(size: nat, start: nat)
    ensures StartsWith(Trailer(size, start), "trailer\n")
    ensures Trailer(size, start) == TrailerSize(size) + "startxref\n" + Numeral(start) + "\n%%EOF\n"
  {
    hide Numeral, Reference;
    assert Trailer(size, start)[..8] == "trailer\n";
  }

  function TrailerSize(size: nat): string {
    "trailer\n<< /Size " + Numeral(size) + " " + "/Root " + Reference(1) + " >>\n"
  }

  lemma FileFromTable(body: string, table: string, size: string, key: string, start: string, marker: string)
    ensures From(body + table + (size + key + start + marker), |body|) == table + (size + key + start + marker)
    ensures body + table + (size + key + start + marker) == (body + table + size) + key + start + marker
  {
  }

  // The number at the end of the file is where the table starts.
  lemma StartOfTable(objects: seq<Object>)
    ensures ReadStart(File(objects)) == Some(|Body(objects)|)
    ensures From(File(objects), |Body(objects)|) == Table(Offsets(objects)) + Trailer(|objects| + 1, |Body(objects)|)
  {
    hide Text, Body, Table, Numeral, Trailer, TrailerSize, ReadStart;
    var offsets, body := Offsets(objects), Body(objects);
    var table, size := Table(offsets), TrailerSize(|objects| + 1);
    TrailerParts(|objects| + 1, |body|);
    FileFromTable(body, table, size, "startxref\n", Numeral(|body|), "\n%%EOF\n");
    StartReads(body + table + size, |body|);
  }

  /** The reader finds the table, and in it the offset of every object, exactly when all the
      offsets are below 10^10. */
  lemma XrefReadsBack(objects: seq<Object>)
    ensures ReadXref(File(objects)) == if AllFit(Offsets(objects)) then Some([Free] + Slots(Offsets(objects))) else None
  {
    hide Text, Body, Table, Numeral, Trailer, ReadTable, ReadStart;
    var offsets, body := Offsets(objects), Body(objects);
    StartOfTable(objects);
    TrailerParts(|objects| + 1, |body|);
    TableReads(offsets, Trailer(|objects| + 1, |body|));
  }

  // ------------------------------------------------------------------ objects and streams

  lemma ChunkIsLong(n: nat, text: string)
    ensures |Chunk(n, text)| > 0
  {
  }

  lemma {:induction false} BodyGrows(objects: seq<Object>, n: nat)
    requires n <= |objects|
    ensures StartsWith(Body(objects), Body(objects[..n]))
    ensures n < |objects| ==> |Body(objects[..n])| < |Body(objects)|
    decreases |objects|
  {
    hide Text, Chunk, Numeral;
    if n < |objects| {
      var shorter, chunk := objects[..|objects| - 1], Chunk(|objects|, Text(objects[|objects| - 1]));
      BodyGrows(shorter, n);
      assert shorter[..n] == objects[..n];
      ChunkIsLong(|objects|, Text(objects[|objects| - 1]));
      Parts(Body(shorter), chunk);
    } else {
      assert objects[..n] == objects;
    }
  }

  lemma PrefixThrough(file: string, through: string, before: string, chunk: string)
    requires StartsWith(file, through) && through == before + chunk
    ensures StartsWith(From(file, |before|), chunk)
  {
    var rest := file[|through|..];
    assert file == before + (chunk + rest);
    Parts(before, chunk + rest);
    Parts(chunk, rest);
  }

  lemma OffsetsIncrease(objects: seq<Object>, m: nat, n: nat)
    requires 1 <= m < n <= |objects|
    ensures Offset(objects, m) < Offset(objects, n)
  {
    hide Text;
    var before := objects[..n - 1];
    BodyGrows(before, m - 1);
    assert before[..m - 1] == objects[..m - 1];
  }

  /** Since offsets increase, the last one decides whether the table can be read. */
  lemma LastOffsetDecides(objects: seq<Object>)
    ensures AllFit(Offsets(objects)) <==> objects == [] || Fits(Offset(objects, |objects|))
  {
    hide Offset;
    if objects != [] {
      assert Offsets(objects)[|objects| - 1] == Offset(objects, |objects|);
      forall i | 0 <= i < |objects| - 1
        ensures Offsets(objects)[i] < Offset(objects, |objects|)
      {
        OffsetsIncrease(objects, i + 1, |objects|);
      }
    }
  }

  lemma BodyUpTo(objects: seq<Object>, n: nat)
    requires 1 <= n <= |objects|
    ensures Body(objects[..n]) == Body(objects[..n - 1]) + Chunk(n, Text(objects[n - 1]))
    ensures StartsWith(File(objects), Body(objects[..n])) && Offset(objects, n) == |Body(objects[..n - 1])|
  {
    hide Text, Chunk, Table, Trailer;
    BodyGrows(objects, n);
    assert objects[..n][..n - 1] == objects[..n - 1];
  }

  /** At the table's offset for object n stands that object, under its number; offsets increase,
      so no two numbers share one. */
  lemma ObjectIsAtItsOffset(objects: seq<Object>, n: nat)
    requires 1 <= n <= |objects|
    ensures StartsWith(From(File(objects), Offset(objects, n)), Chunk(n, Text(objects[n - 1])))
    ensures forall m :: 1 <= m < n ==> Offset(objects, m) < Offset(objects, n)
  {
    hide *;
    var before, through := objects[..n - 1], objects[..n];
    assert through[..n - 1] == before;
    BodyUpTo(objects, n);
    PrefixThrough(File(objects), Body(through), Body(before), Chunk(n, Text(objects[n - 1])));
    forall m | 1 <= m < n
      ensures Offset(objects, m) < Offset(objects, n)
    {
      OffsetsIncrease(objects, m, n);
    }
  }

  // A stream: as many bytes as its /Length says, between its two keywords.
  function ReadStream(s: string): Option<string> {
    if !StartsWith(s, "<< /Length ") then None
    else
      var length := ReadNumber(s[11..], " >>\nstream\n");
      if length.None? || length.value.0 > |length.value.1| then None
      else if StartsWith(length.value.1[length.value.0..], "\nendstream") then Some(length.value.1[..length.value.0])
      else None
  }

  /** A stream reads back whatever its bytes are, even if they contain the closing keyword. */
  lemma StreamReadsBack(stream: string, rest: string)
    ensures ReadStream(StreamText(stream) + rest) == Some(stream)
  {
    hide ReadNumber, Numeral;
    var after := stream + ("\nendstream" + rest);
    StreamParts(stream, rest);
    Parts("<< /Length ", Numeral(|stream|) + (" >>\nstream\n" + after));
    ReadNumeral(|stream|, " >>\nstream\n", after);
    Parts(stream, "\nendstream" + rest);
    Parts("\nendstream", rest);
  }

  lemma StreamParts(stream: string, rest: string)
    ensures StreamText(stream) + rest ==
            "<< /Length " + (Numeral(|stream|) + (" >>\nstream\n" + (stream + ("\nendstream" + rest))))
  {
    hide Numeral;
    Nest6("<< /Length ", Numeral(|stream|), " >>\nstream\n", stream, "\nendstream", rest);
  }

  // The object that starts at a position, after its number.
  function ReadObject(s: string, n: nat): Option<string> {
    var number := ReadNumber(s, " 0 obj\n");
    if number.Some? && number.value.0 == n then Some(number.value.1) else None
  }

  // What is written under a number reads as that object, followed by the rest of the file.
  lemma ObjectReads(s: string, n: nat, text: string) returns (rest: string)
    requires StartsWith(s, Chunk(n, text))
    ensures ReadObject(s, n) == Some(text + rest) && StartsWith(rest, "\nendobj\n")
  {
    var chunk := Chunk(n, text);
    Parts("\nendobj\n", s[|chunk|..]);
    rest := "\nendobj\n" + s[|chunk|..];
    assert s == chunk + s[|chunk|..];
    assert s == Numeral(n) + (" 0 obj\n" + (text + rest));
    ReadNumeral(n, " 0 obj\n", text + rest);
  }
}
