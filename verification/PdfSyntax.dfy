/**
  Objects of a PDF file as values: names, integers, references, arrays and dictionaries, and a
  parser of them after section 7.3 of ISO 32000-1.
*/
module PdfSyntax {
  import opened Wrappers
  import opened Decimal
  import opened Strings
  import opened TextOperators

  datatype PdfValue = Name(name: string) | Int(value: nat) | Ref(number: nat) | Arr(items: seq<PdfValue>)
    | Dict(entries: seq<Member>)

  datatype Member = Member(key: string, value: PdfValue)

  // The value of the first entry with a key.
  function Lookup(entries: seq<Member>, key: string): Option<PdfValue> {
    if entries == [] then None
    else if entries[0].key == key then Some(entries[0].value)
    else Lookup(entries[1..], key)
  }

  // ------------------------------------------------------------------ the parser

  // The words of a text: brackets, names, numbers and keywords.
  function Words(s: string): Option<seq<string>>
    decreases |s|
  {
    if s == [] then Some([])
    else if IsWhite(s[0]) then Words(s[1..])
    else
      var n := if s[0] == '[' || s[0] == ']' then 1
               else if StartsWith(s, "<<") || StartsWith(s, ">>") then 2
               else WordLength(s);
      if n == 0 then None
      else
        var others :- Words(s[n..]);
        Some([s[..n]] + others)
  }

  // A value at the beginning of the words, and the words behind it.
  function ParseValue(words: seq<string>): (r: Option<(PdfValue, seq<string>)>)
    ensures r.Some? ==> |r.value.1| < |words|
    decreases |words|, 0
  {
    if words == [] || words[0] == [] then None
    else if words[0] == "<<" then
      var (entries, rest) :- ParseEntries(words[1..]);
      Some((Dict(entries), rest))
    else if words[0] == "[" then
      var (items, rest) :- ParseItems(words[1..]);
      Some((Arr(items), rest))
    else if words[0][0] == '/' then Some((Name(words[0][1..]), words[1..]))
    else
      var n :- Decimal.Value(words[0]);
      if |words| >= 3 && words[1] == "0" && words[2] == "R" then Some((Ref(n), words[3..]))
      else Some((Int(n), words[1..]))
  }

  // Values up to the closing bracket.
  function ParseItems(words: seq<string>): (r: Option<(seq<PdfValue>, seq<string>)>)
    ensures r.Some? ==> |r.value.1| < |words|
    decreases |words|, 1
  {
    if words == [] then None
    else if words[0] == "]" then Some(([], words[1..]))
    else
      var (first, after) :- ParseValue(words);
      var (others, rest) :- ParseItems(after);
      Some(([first] + others, rest))
  }

  // Keys with their values up to the closing brackets.
  function ParseEntries(words: seq<string>): (r: Option<(seq<Member>, seq<string>)>)
    ensures r.Some? ==> |r.value.1| < |words|
    decreases |words|, 1
  {
    if words == [] || words[0] == [] then None
    else if words[0] == ">>" then Some(([], words[1..]))
    else if words[0][0] != '/' then None
    else
      var (first, after) :- ParseValue(words[1..]);
      var (others, rest) :- ParseEntries(after);
      Some(([Member(words[0][1..], first)] + others, rest))
  }

  // The dictionary that a text is.
  function ParseDictionary(s: string): Option<seq<Member>> {
    var words :- Words(s);
    var (value, rest) :- ParseValue(words);
    if value.Dict? && rest == [] then Some(value.entries) else None
  }

  // ------------------------------------------------------------------ printing

  function ValueWords(v: PdfValue): (words: seq<string>)
    ensures words != []
    decreases v
  {
    match v
    case Name(name) => ["/" + name]
    case Int(value) => [Numeral(value)]
    case Ref(number) => [Numeral(number), "0", "R"]
    case Arr(items) => ["["] + ItemWords(items) + ["]"]
    case Dict(entries) => ["<<"] + EntryWords(entries) + [">>"]
  }

  function ItemWords(items: seq<PdfValue>): seq<string>
    decreases items
  {
    if items == [] then [] else ValueWords(items[0]) + ItemWords(items[1..])
  }

  function EntryWords(entries: seq<Member>): seq<string>
    decreases entries
  {
    if entries == [] then []
    else ["/" + entries[0].key] + ValueWords(entries[0].value) + EntryWords(entries[1..])
  }

  // Words with blanks between them, but for the inner sides of square brackets.
  function Written(words: seq<string>): string {
    if words == [] then []
    else if |words| == 1 then words[0]
    else words[0] + Gap(words[0], words[1]) + Written(words[1..])
  }

  function Gap(left: string, right: string): string {
    if left == "[" || right == "]" then "" else " "
  }

  function Print(v: PdfValue): string {
    Written(ValueWords(v))
  }

  // ------------------------------------------------------------------ the parser reads what is printed

  // No `R` where it could make a reference of the number before.
  predicate Apart(words: seq<string>) {
    (|words| >= 1 ==> words[0] != "R") && (|words| >= 2 ==> words[1] != "R")
  }

  // A word that is not empty is known by its first character.
  lemma StartsOtherwise(w: string, other: string)
    requires w != [] && other != [] && w[0] != other[0]
    ensures w != other
  {
  }

  lemma NumeralIsNoBracket(n: nat)
    ensures Numeral(n) != "<<" && Numeral(n) != "[" && Numeral(n) != ">>" && Numeral(n) != "]" && Numeral(n) != "R"
    ensures Numeral(n)[0] != '/'
  {
    var w := Numeral(n);
    assert IsDigit(w[0]);
    hide Numeral;
    StartsOtherwise(w, "<<");
    StartsOtherwise(w, "[");
    StartsOtherwise(w, ">>");
    StartsOtherwise(w, "]");
    StartsOtherwise(w, "R");
  }

  lemma NameIsNoBracket(name: string)
    ensures var w := "/" + name;
            w != "<<" && w != "[" && w != ">>" && w != "]" && w != "R" && w[0] == '/' && w[1..] == name
  {
    var w := "/" + name;
    assert w[0] == '/';
    StartsOtherwise(w, "<<");
    StartsOtherwise(w, "[");
    StartsOtherwise(w, ">>");
    StartsOtherwise(w, "]");
    StartsOtherwise(w, "R");
  }

  lemma BracketsDiffer()
    ensures "[" != "R" && "[" != "]" && "[" != ">>" && "[" != "<<" && "<<" != "R" && "<<" != "]" && "<<" != ">>"
    ensures "]" != "R" && ">>" != "R" && "0" != "R"
  {
    StartsOtherwise("[", "R");
    StartsOtherwise("[", "]");
    StartsOtherwise("[", ">>");
    StartsOtherwise("[", "<<");
    StartsOtherwise("<<", "R");
    StartsOtherwise("<<", "]");
    StartsOtherwise("<<", ">>");
    StartsOtherwise("]", "R");
    StartsOtherwise(">>", "R");
    StartsOtherwise("0", "R");
  }

  // What a value may begin with.
  predicate IsStart(w: string) {
    w != [] && w != "R" && w != "]" && w != ">>"
  }

  lemma FirstWord(v: PdfValue)
    ensures IsStart(ValueWords(v)[0])
  {
    BracketsDiffer();
    match v
    case Name(name) => NameIsNoBracket(name);
    case Int(n) => NumeralIsNoBracket(n);
    case Ref(n) => NumeralIsNoBracket(n);
    case _ =>
  }

  lemma ItemsFromFront(items: seq<PdfValue>)
    requires items != []
    ensures ItemWords(items) == ValueWords(items[0]) + ItemWords(items[1..])
  {
  }

  lemma EntriesFromFront(entries: seq<Member>)
    requires entries != []
    ensures EntryWords(entries) ==
            ["/" + entries[0].key] + ValueWords(entries[0].value) + EntryWords(entries[1..])
  {
  }

  // What stands behind the first word of a value is no `R` either.
  lemma SecondWord(v: PdfValue)
    ensures |ValueWords(v)| >= 2 ==> ValueWords(v)[1] != "R"
  {
    BracketsDiffer();
    match v
    case Arr(items) =>
      assert ValueWords(v) == ["["] + (ItemWords(items) + ["]"]);
      hide ValueWords, ItemWords;
      if items != [] {
        FirstWord(items[0]);
        ItemsFromFront(items);
      } else {
        NoWords();
      }
    case Dict(entries) =>
      assert ValueWords(v) == ["<<"] + (EntryWords(entries) + [">>"]);
      hide ValueWords, EntryWords;
      if entries != [] {
        NameIsNoBracket(entries[0].key);
        EntriesFromFront(entries);
      } else {
        NoWords();
      }
    case _ =>
  }

  lemma NoWords()
    ensures ItemWords([]) == [] && EntryWords([]) == []
  {
  }

  lemma StaysApart(v: PdfValue, rest: seq<string>)
    requires Apart(rest)
    ensures Apart(ValueWords(v) + rest)
  {
    FirstWord(v);
    SecondWord(v);
    hide ValueWords;
  }

  // ---- one step of the parser each

  lemma ParsesName(name: string, rest: seq<string>)
    ensures ParseValue(["/" + name] + rest) == Some((Name(name), rest))
  {
    NameIsNoBracket(name);
    assert (["/" + name] + rest)[1..] == rest;
  }

  lemma ParsesInt(n: nat, rest: seq<string>)
    requires Apart(rest)
    ensures ParseValue([Numeral(n)] + rest) == Some((Int(n), rest))
  {
    NumeralIsNoBracket(n);
    NumeralRoundTrip(n);
    hide Numeral, Decimal.Value;
    var words := [Numeral(n)] + rest;
    assert words[1..] == rest;
    assert |words| >= 3 ==> words[2] == rest[1];
  }

  lemma ParsesRef(n: nat, rest: seq<string>)
    ensures ParseValue([Numeral(n), "0", "R"] + rest) == Some((Ref(n), rest))
  {
    NumeralIsNoBracket(n);
    NumeralRoundTrip(n);
    hide Numeral, Decimal.Value;
    var words := [Numeral(n), "0", "R"] + rest;
    assert words[1] == "0" && words[2] == "R" && words[3..] == rest;
  }

  lemma ParsesArray(inside: seq<string>, items: seq<PdfValue>, rest: seq<string>)
    requires ParseItems(inside) == Some((items, rest))
    ensures ParseValue(["["] + inside) == Some((Arr(items), rest))
  {
    hide ParseItems;
    BracketsDiffer();
    assert (["["] + inside)[1..] == inside;
  }

  lemma ParsesDictionary(inside: seq<string>, entries: seq<Member>, rest: seq<string>)
    requires ParseEntries(inside) == Some((entries, rest))
    ensures ParseValue(["<<"] + inside) == Some((Dict(entries), rest))
  {
    hide ParseEntries;
    BracketsDiffer();
    assert (["<<"] + inside)[1..] == inside;
  }

  lemma ParsesNoItem(rest: seq<string>)
    ensures ParseItems(["]"] + rest) == Some(([], rest))
  {
    assert (["]"] + rest)[1..] == rest;
  }

  lemma ParsesItem(words: seq<string>, first: PdfValue, after: seq<string>, others: seq<PdfValue>, rest: seq<string>)
    requires words != [] && words[0] != "]" && ParseValue(words) == Some((first, after))
    requires ParseItems(after) == Some((others, rest))
    ensures ParseItems(words) == Some(([first] + others, rest))
  {
    hide ParseValue;
  }

  lemma ParsesNoEntry(rest: seq<string>)
    ensures ParseEntries([">>"] + rest) == Some(([], rest))
  {
    assert ([">>"] + rest)[1..] == rest;
  }

  lemma ParsesEntry(key: string, words: seq<string>, first: PdfValue, after: seq<string>, others: seq<Member>,
                    rest: seq<string>)
    requires ParseValue(words) == Some((first, after)) && ParseEntries(after) == Some((others, rest))
    ensures ParseEntries(["/" + key] + words) == Some(([Member(key, first)] + others, rest))
  {
    hide ParseValue;
    NameIsNoBracket(key);
    assert (["/" + key] + words)[1..] == words;
  }

  // ---- all of it

  lemma {:induction false} ValueParses(v: PdfValue, rest: seq<string>)
    requires Apart(rest)
    ensures ParseValue(ValueWords(v) + rest) == Some((v, rest))
    decreases v
  {
    hide ParseValue, ParseItems, ParseEntries, ItemWords, EntryWords, Apart, Numeral;
    match v
    case Name(name) => ParsesName(name, rest);
    case Int(n) => ParsesInt(n, rest);
    case Ref(n) => ParsesRef(n, rest);
    case Arr(items) =>
      var inside := ItemWords(items) + (["]"] + rest);
      assert ValueWords(v) + rest == ["["] + inside;
      ItemsParse(items, rest);
      ParsesArray(inside, items, rest);
    case Dict(entries) =>
      var inside := EntryWords(entries) + ([">>"] + rest);
      assert ValueWords(v) + rest == ["<<"] + inside;
      EntriesParse(entries, rest);
      ParsesDictionary(inside, entries, rest);
  }

  lemma Prefixed(a: seq<string>, b: seq<string>, c: seq<string>)
    ensures (a + b) + c == a + (b + c)
  {
  }

  lemma {:induction false} ItemsAreApart(items: seq<PdfValue>, rest: seq<string>)
    requires Apart(rest)
    ensures Apart(ItemWords(items) + (["]"] + rest))
  {
    BracketsDiffer();
    if items == [] {
      NoWords();
      assert [] + (["]"] + rest) == ["]"] + rest;
    } else {
      hide ItemWords, ValueWords, Apart;
      ItemsAreApart(items[1..], rest);
      StaysApart(items[0], ItemWords(items[1..]) + (["]"] + rest));
      ItemsFromFront(items);
      Prefixed(ValueWords(items[0]), ItemWords(items[1..]), ["]"] + rest);
    }
  }

  lemma {:induction false} ItemsParse(items: seq<PdfValue>, rest: seq<string>)
    requires Apart(rest)
    ensures ParseItems(ItemWords(items) + (["]"] + rest)) == Some((items, rest))
    decreases items
  {
    hide *;
    if items == [] {
      NoWords();
      assert [] + (["]"] + rest) == ["]"] + rest;
      ParsesNoItem(rest);
    } else {
      var after := ItemWords(items[1..]) + (["]"] + rest);
      ItemsFromFront(items);
      Prefixed(ValueWords(items[0]), ItemWords(items[1..]), ["]"] + rest);
      ItemsAreApart(items[1..], rest);
      ValueParses(items[0], after);
      ItemsParse(items[1..], rest);
      StartIsFirst(items[0], after);
      ParsesItem(ValueWords(items[0]) + after, items[0], after, items[1..], rest);
      assert [items[0]] + items[1..] == items;
    }
  }

  lemma StartIsFirst(v: PdfValue, after: seq<string>)
    ensures ValueWords(v) + after != [] && (ValueWords(v) + after)[0] != "]"
  {
    FirstWord(v);
    hide ValueWords;
  }

  lemma {:induction false} EntriesAreApart(entries: seq<Member>, rest: seq<string>)
    requires Apart(rest)
    ensures Apart(EntryWords(entries) + ([">>"] + rest))
  {
    BracketsDiffer();
    if entries == [] {
      NoWords();
      assert [] + ([">>"] + rest) == [">>"] + rest;
    } else {
      hide EntryWords, ValueWords;
      FirstWord(entries[0].value);
      NameIsNoBracket(entries[0].key);
      EntriesFromFront(entries);
    }
  }

  lemma {:induction false} EntriesParse(entries: seq<Member>, rest: seq<string>)
    requires Apart(rest)
    ensures ParseEntries(EntryWords(entries) + ([">>"] + rest)) == Some((entries, rest))
    decreases entries
  {
    hide *;
    if entries == [] {
      NoWords();
      assert [] + ([">>"] + rest) == [">>"] + rest;
      ParsesNoEntry(rest);
    } else {
      var key, v := entries[0].key, entries[0].value;
      var after := EntryWords(entries[1..]) + ([">>"] + rest);
      EntriesFromFront(entries);
      Prefixed(["/" + key] + ValueWords(v), EntryWords(entries[1..]), [">>"] + rest);
      Prefixed(["/" + key], ValueWords(v), after);
      EntriesAreApart(entries[1..], rest);
      ValueParses(v, after);
      EntriesParse(entries[1..], rest);
      ParsesEntry(key, ValueWords(v) + after, v, after, entries[1..], rest);
      assert [Member(key, v)] + entries[1..] == entries;
    }
  }

  // ------------------------------------------------------------------ the lexer reads what is written

  predicate IsBracket(w: string) {
    w == "<<" || w == ">>" || w == "[" || w == "]"
  }

  predicate AllLegal(words: seq<string>) {
    forall i :: 0 <= i < |words| ==> IsBracket(words[i]) || IsWord(words[i])
  }

  lemma LexesBracket(w: string, rest: string)
    requires IsBracket(w)
    ensures Words(w + rest) == if Words(rest).None? then None else Some([w] + Words(rest).value)
  {
    var s := w + rest;
    assert s[|w|..] == rest && s[..|w|] == w && !IsWhite(s[0]);
    hide WordLength;
    if |w| == 2 {
      assert s[..2] == w;
    }
  }

  lemma LexesWord(w: string, rest: string)
    requires IsWord(w) && (rest == [] || !IsRegular(rest[0]))
    ensures Words(w + rest) == if Words(rest).None? then None else Some([w] + Words(rest).value)
  {
    var s := w + rest;
    assert s[|w|..] == rest && s[..|w|] == w;
    LengthIs(w, rest);
    assert !IsWhite(s[0]) && s[0] != '[' && s[0] != ']' && s[0] != '<' && s[0] != '>';
    hide WordLength, IsWord, IsRegular, IsWhite;
    StartsNoBracket(s);
  }

  lemma StartsNoBracket(s: string)
    requires s != [] && s[0] != '<' && s[0] != '>'
    ensures !StartsWith(s, "<<") && !StartsWith(s, ">>")
  {
    Unlike(s, "<<", 0);
    Unlike(s, ">>", 0);
  }

  lemma LengthIs(w: string, rest: string)
    requires IsWord(w) && (rest == [] || !IsRegular(rest[0]))
    ensures WordLength(w + rest) == |w| > 0
  {
    if w[0] == '/' {
      RegularEnds(w[1..], rest);
      assert (w + rest)[1..] == w[1..] + rest;
    } else {
      RegularEnds(w, rest);
    }
  }

  lemma LexWord(w: string, rest: string)
    requires IsBracket(w) || (IsWord(w) && (rest == [] || !IsRegular(rest[0])))
    ensures Words(w + rest) == if Words(rest).None? then None else Some([w] + Words(rest).value)
  {
    hide Words, IsWord, IsBracket;
    if IsBracket(w) {
      LexesBracket(w, rest);
    } else {
      LexesWord(w, rest);
    }
  }

  lemma LexGap(left: string, right: string, tail: string)
    requires IsBracket(left) || IsWord(left)
    requires IsBracket(right) || IsWord(right)
    requires tail != [] && tail[0] == right[0]
    ensures var rest := Gap(left, right) + tail;
            Words(rest) == Words(tail) && (IsBracket(left) || !IsRegular(rest[0]))
  {
    var gap := Gap(left, right);
    if gap == " " {
      assert (" " + tail)[1..] == tail;
    } else {
      assert gap + tail == tail;
      hide Words;
    }
  }

  lemma WrittenUnfold(words: seq<string>)
    ensures words == [] ==> Written(words) == []
    ensures |words| == 1 ==> Written(words) == words[0] + []
    ensures |words| >= 2 ==> Written(words) == words[0] + (Gap(words[0], words[1]) + Written(words[1..]))
  {
    if |words| == 1 {
      assert words[0] + [] == words[0];
    } else if |words| >= 2 {
      var gap, tail := Gap(words[0], words[1]), Written(words[1..]);
      assert words[0] + gap + tail == words[0] + (gap + tail);
    }
  }

  lemma LegalParts(words: seq<string>)
    requires AllLegal(words)
    ensures words != [] ==> (IsBracket(words[0]) || IsWord(words[0])) && AllLegal(words[1..])
    ensures |words| >= 2 ==> IsBracket(words[1]) || IsWord(words[1])
  {
    hide IsBracket, IsWord;
  }

  lemma {:induction false} WrittenIsRead(words: seq<string>)
    requires AllLegal(words)
    ensures Words(Written(words)) == Some(words)
  {
    hide *;
    WrittenUnfold(words);
    LegalParts(words);
    NothingRead();
    if |words| == 1 {
      LexWord(words[0], []);
      assert words == [words[0]] + [];
    } else if |words| >= 2 {
      WrittenIsRead(words[1..]);
      StartOfWritten(words[1..]);
      LexGap(words[0], words[1], Written(words[1..]));
      LexWord(words[0], Gap(words[0], words[1]) + Written(words[1..]));
      assert words == [words[0]] + words[1..];
    }
  }

  lemma NothingRead()
    ensures Words([]) == Some([])
  {
  }

  lemma StartOfWritten(words: seq<string>)
    requires words != [] && AllLegal(words)
    ensures Written(words) != [] && Written(words)[0] == words[0][0]
  {
  }

  predicate LegalName(name: string) {
    forall i :: 0 <= i < |name| ==> IsRegular(name[i])
  }

  predicate LegalValue(v: PdfValue)
    decreases v
  {
    match v
    case Name(name) => LegalName(name)
    case Arr(items) => forall i :: 0 <= i < |items| ==> LegalValue(items[i])
    case Dict(entries) => forall i :: 0 <= i < |entries| ==> LegalName(entries[i].key) && LegalValue(entries[i].value)
    case _ => true
  }

  lemma AllLegalBoth(a: seq<string>, b: seq<string>)
    requires AllLegal(a) && AllLegal(b)
    ensures AllLegal(a + b)
  {
  }

  lemma {:induction false} ValueIsLegal(v: PdfValue)
    requires LegalValue(v)
    ensures AllLegal(ValueWords(v))
    decreases v
  {
    match v
    case Name(name) =>
    case Int(n) => assert forall i :: 0 <= i < |Numeral(n)| ==> IsDigit(Numeral(n)[i]);
    case Ref(n) => assert forall i :: 0 <= i < |Numeral(n)| ==> IsDigit(Numeral(n)[i]);
    case Arr(items) =>
      ItemsAreLegal(items);
      AllLegalBoth(["["], ItemWords(items));
      AllLegalBoth(["["] + ItemWords(items), ["]"]);
    case Dict(entries) =>
      EntriesAreLegal(entries);
      AllLegalBoth(["<<"], EntryWords(entries));
      AllLegalBoth(["<<"] + EntryWords(entries), [">>"]);
  }

  lemma {:induction false} ItemsAreLegal(items: seq<PdfValue>)
    requires forall i :: 0 <= i < |items| ==> LegalValue(items[i])
    ensures AllLegal(ItemWords(items))
    decreases items
  {
    if items != [] {
      ValueIsLegal(items[0]);
      ItemsAreLegal(items[1..]);
      AllLegalBoth(ValueWords(items[0]), ItemWords(items[1..]));
    }
  }

  lemma {:induction false} EntriesAreLegal(entries: seq<Member>)
    requires forall i :: 0 <= i < |entries| ==> LegalName(entries[i].key) && LegalValue(entries[i].value)
    ensures AllLegal(EntryWords(entries))
    decreases entries
  {
    if entries != [] {
      ValueIsLegal(entries[0].value);
      EntriesAreLegal(entries[1..]);
      AllLegalBoth(["/" + entries[0].key], ValueWords(entries[0].value));
      AllLegalBoth(["/" + entries[0].key] + ValueWords(entries[0].value), EntryWords(entries[1..]));
    }
  }

  /** Parsing a printed dictionary gives it back, whatever it holds. */
  lemma DictionaryRoundTrip(entries: seq<Member>)
    requires LegalValue(Dict(entries))
    ensures ParseDictionary(Print(Dict(entries))) == Some(entries)
  {
    var words := ValueWords(Dict(entries));
    ValueIsLegal(Dict(entries));
    WrittenIsRead(words);
    ValueParses(Dict(entries), []);
    assert words + [] == words;
  }

  // ------------------------------------------------------------------ what printing looks like

  lemma {:induction false} WrittenBoth(a: seq<string>, b: seq<string>)
    requires a != [] && b != []
    ensures Written(a + b) == Written(a) + Gap(a[|a| - 1], b[0]) + Written(b)
  {
    var words := a + b;
    if |a| == 1 {
      assert words[0] == a[0] && words[1] == b[0] && words[1..] == b;
    } else {
      assert words[0] == a[0] && words[1] == a[1] && words[1..] == a[1..] + b;
      WrittenBoth(a[1..], b);
      Regroup(a[0], Gap(a[0], a[1]), Written(a[1..]), Gap(a[|a| - 1], b[0]), Written(b));
    }
  }

  lemma Regroup(a: string, b: string, c: string, d: string, e: string)
    ensures a + b + (c + d + e) == (a + b + c) + d + e
  {
  }

  lemma LastWord(v: PdfValue)
    ensures var words := ValueWords(v); words[|words| - 1] != "["
  {
    hide ItemWords, EntryWords;
    BracketsDiffer();
    match v
    case Name(name) => NameIsNoBracket(name);
    case Int(n) => NumeralIsNoBracket(n);
    case _ =>
  }

  function EntryText(e: Member): string {
    "/" + e.key + " " + Print(e.value)
  }

  function EntriesText(entries: seq<Member>): string {
    if entries == [] then []
    else if |entries| == 1 then EntryText(entries[0])
    else EntryText(entries[0]) + " " + EntriesText(entries[1..])
  }

  function ItemsText(items: seq<PdfValue>): string {
    if items == [] then []
    else if |items| == 1 then Print(items[0])
    else Print(items[0]) + " " + ItemsText(items[1..])
  }

  lemma NoGapNeeded(left: string, right: string)
    ensures left != "[" && right != "]" ==> Gap(left, right) == " "
  {
  }

  lemma EntryIsWritten(e: Member)
    ensures Written(["/" + e.key] + ValueWords(e.value)) == EntryText(e)
    ensures var words := ["/" + e.key] + ValueWords(e.value); words[|words| - 1] != "["
  {
    var v := ValueWords(e.value);
    assert Print(e.value) == Written(v);
    hide Written, ValueWords, Gap, Print;
    FirstWord(e.value);
    LastWord(e.value);
    NameIsNoBracket(e.key);
    OneWritten("/" + e.key);
    WrittenBoth(["/" + e.key], v);
    NoGapNeeded("/" + e.key, v[0]);
    assert (["/" + e.key] + v)[|v|] == v[|v| - 1];
  }

  lemma {:induction false} EntriesAreWritten(entries: seq<Member>)
    requires entries != []
    ensures EntryWords(entries) != [] && Written(EntryWords(entries)) == EntriesText(entries)
    ensures var words := EntryWords(entries); words[0] != [] && words[0][0] == '/' && words[|words| - 1] != "["
  {
    var first := ["/" + entries[0].key] + ValueWords(entries[0].value);
    hide Written, EntryWords, ValueWords, EntryText, Gap;
    EntryIsWritten(entries[0]);
    EntriesFromFront(entries);
    NameIsNoBracket(entries[0].key);
    if |entries| == 1 {
      NoWords();
      assert entries[1..] == [] && first + [] == first;
    } else {
      var others := EntryWords(entries[1..]);
      EntriesAreWritten(entries[1..]);
      WrittenBoth(first, others);
      StartsOtherwise(others[0], "]");
      NoGapNeeded(first[|first| - 1], others[0]);
      assert (first + others)[|first + others| - 1] == others[|others| - 1];
    }
  }

  lemma {:induction false} ItemsAreWritten(items: seq<PdfValue>)
    requires items != []
    ensures ItemWords(items) != [] && Written(ItemWords(items)) == ItemsText(items)
    ensures var words := ItemWords(items); words[0] != "]" && words[|words| - 1] != "["
  {
    var first := ValueWords(items[0]);
    assert Print(items[0]) == Written(first);
    hide Written, ItemWords, ValueWords, Gap, Print;
    FirstWord(items[0]);
    LastWord(items[0]);
    ItemsFromFront(items);
    if |items| == 1 {
      NoWords();
      assert items[1..] == [] && first + [] == first;
    } else {
      var others := ItemWords(items[1..]);
      ItemsAreWritten(items[1..]);
      WrittenBoth(first, others);
      NoGapNeeded(first[|first| - 1], others[0]);
      assert (first + others)[|first + others| - 1] == others[|others| - 1];
    }
  }

  lemma OneWritten(w: string)
    ensures Written([w]) == w
  {
  }

  lemma GapAround(first: string, last: string)
    requires first != [] && first[0] == '/' && last != "["
    ensures Gap("<<", first) == " " && Gap(last, ">>") == " "
  {
    assert "["[0] == '[' && "]"[0] == ']' && "<<"[0] == '<' && ">>"[0] == '>';
  }

  lemma PrintedDictionary(entries: seq<Member>)
    requires entries != []
    ensures Print(Dict(entries)) == "<< " + EntriesText(entries) + " >>"
  {
    hide Written, EntryWords, EntriesText, Gap;
    var words := EntryWords(entries);
    EntriesAreWritten(entries);
    GapAround(words[0], words[|words| - 1]);
    OneWritten("<<");
    OneWritten(">>");
    WrittenBoth(["<<"], words);
    WrittenBoth(["<<"] + words, [">>"]);
    assert (["<<"] + words)[|["<<"] + words| - 1] == words[|words| - 1];
  }

  lemma NoGapInside(first: string, last: string)
    ensures Gap("[", first) == "" && Gap(last, "]") == ""
  {
  }

  lemma PrintedArray(items: seq<PdfValue>)
    requires items != []
    ensures Print(Arr(items)) == "[" + ItemsText(items) + "]"
  {
    hide Written, ItemWords, ItemsText, Gap;
    var words := ItemWords(items);
    ItemsAreWritten(items);
    NoGapInside(words[0], words[|words| - 1]);
    OneWritten("[");
    OneWritten("]");
    WrittenBoth(["["], words);
    WrittenBoth(["["] + words, ["]"]);
    assert (["["] + words)[|["["] + words| - 1] == words[|words| - 1];
  }

  lemma PrintedSimply(name: string, n: nat)
    ensures Print(Name(name)) == "/" + name && Print(Int(n)) == Numeral(n) && Print(Ref(n)) == Numeral(n) + " 0 R"
  {
    var words := [Numeral(n), "0", "R"];
    NumeralIsNoBracket(n);
    assert words[1..] == ["0", "R"] && words[1..][1..] == ["R"];
    BracketsDiffer();
    StartsOtherwise("0", "[");
    StartsOtherwise("R", "]");
    StartsOtherwise("0", "]");
    assert Written(words[1..]) == "0 R";
  }

  lemma MoreEntries(key: string, v: PdfValue, others: seq<Member>)
    requires others != []
    ensures EntriesText([Member(key, v)] + others) == "/" + key + " " + Print(v) + " " + EntriesText(others)
  {
    assert ([Member(key, v)] + others)[1..] == others;
  }

  lemma LastEntry(key: string, v: PdfValue)
    ensures EntriesText([Member(key, v)]) == "/" + key + " " + Print(v)
  {
  }

  lemma MoreItems(v: PdfValue, others: seq<PdfValue>)
    requires others != []
    ensures ItemsText([v] + others) == Print(v) + " " + ItemsText(others)
  {
    assert ([v] + others)[1..] == others;
  }

  lemma LastItem(v: PdfValue)
    ensures ItemsText([v]) == Print(v)
  {
  }

  predicate NoBreaks(s: string) {
    forall i :: 0 <= i < |s| ==> s[i] != '\n'
  }

  lemma {:induction false} WrittenHasNoBreaks(words: seq<string>)
    requires AllLegal(words)
    ensures NoBreaks(Written(words))
  {
    if words != [] {
      assert NoBreaks(words[0]);
      if |words| > 1 {
        WrittenHasNoBreaks(words[1..]);
      }
    }
  }

  lemma PrintHasNoBreaks(v: PdfValue)
    requires LegalValue(v)
    ensures NoBreaks(Print(v))
  {
    ValueIsLegal(v);
    WrittenHasNoBreaks(ValueWords(v));
  }

  predicate DistinctInitials(entries: seq<Member>) {
    && (forall i :: 0 <= i < |entries| ==> entries[i].key != [])
    && (forall i, j :: 0 <= i < j < |entries| ==> entries[i].key[0] != entries[j].key[0])
  }

  lemma {:induction false} LookupAt(entries: seq<Member>, i: nat)
    requires i < |entries| && DistinctInitials(entries)
    ensures Lookup(entries, entries[i].key) == Some(entries[i].value)
  {
    if i > 0 {
      var others := entries[1..];
      forall k | 0 <= k < |others|
        ensures others[k] == entries[k + 1]
      {
      }
      LookupAt(others, i - 1);
      assert entries[0].key[0] != entries[i].key[0];
    }
  }
}
