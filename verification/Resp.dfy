/**
  The wire format of the coordinator: commands as arrays of bulk strings, and the reply reader
  that is fed one chunk at a time.  A byte is a char; parts are already encoded.
*/
module Resp {
  import opened Wrappers
  import opened Decimal

  type Bytes = string

  const CRLF: Bytes := "\r\n"

  function Bulk(part: Bytes): Bytes {
    "$" + Numeral(|part|) + CRLF + part + CRLF
  }

  function Bulks(parts: seq<Bytes>): Bytes {
    if parts == [] then [] else Bulks(parts[..|parts| - 1]) + Bulk(parts[|parts| - 1])
  }

  method Command(parts: seq<Bytes>) returns (wire: Bytes)
    ensures wire == "*" + Numeral(|parts|) + CRLF + Bulks(parts)
  {
    hide Numeral;
    wire := "*" + Numeral(|parts|) + CRLF;
    ghost var header := wire;
    for i := 0 to |parts|
      invariant wire == header + Bulks(parts[..i])
    {
      BulksNext(parts, i, header);
      wire := wire + ("$" + Numeral(|parts[i]|) + CRLF) + parts[i] + CRLF;
    }
    assert parts[..|parts|] == parts;
  }

  lemma BulksNext(parts: seq<Bytes>, i: nat, header: Bytes)
    requires i < |parts|
    ensures header + Bulks(parts[..i + 1]) ==
            header + Bulks(parts[..i]) + ("$" + Numeral(|parts[i]|) + CRLF) + parts[i] + CRLF
  {
    hide Numeral;
    assert parts[..i + 1][..i] == parts[..i];
    Regroup(header, Bulks(parts[..i]), "$" + Numeral(|parts[i]|) + CRLF, parts[i], CRLF);
  }

  lemma Regroup(a: Bytes, b: Bytes, c: Bytes, d: Bytes, e: Bytes)
    ensures a + (b + (c + d + e)) == a + b + c + d + e
  {
  }

  // ------------------------------------------------------------------ a server's reader

  // Where the first CRLF starts, or the length when there is none.
  function LineEnd(s: Bytes): (end: nat)
    ensures end <= |s| && (end < |s| ==> end + 1 < |s| && s[end] == '\r' && s[end + 1] == '\n')
  {
    if |s| < 2 then |s|
    else if s[0] == '\r' && s[1] == '\n' then 0
    else LineEnd(s[1..]) + 1
  }

  // A type byte and a number up to CRLF; what follows them.
  function ReadHeader(s: Bytes, kind: char): Option<(nat, Bytes)> {
    var end := LineEnd(s);
    if end >= |s| || end == 0 || s[0] != kind then None
    else
      var n := Value(s[1..end]);
      if n.None? then None else Some((n.value, s[end + 2..]))
  }

  function ReadBulk(s: Bytes): Option<(Bytes, Bytes)> {
    var header := ReadHeader(s, '$');
    if header.None? then None
    else
      var n, rest := header.value.0, header.value.1;
      if |rest| < n + 2 || rest[n..n + 2] != CRLF then None else Some((rest[..n], rest[n + 2..]))
  }

  // Exactly n bulk strings and nothing after them.
  function ReadBulks(s: Bytes, n: nat): Option<seq<Bytes>> {
    if n == 0 then if s == [] then Some([]) else None
    else
      var first := ReadBulk(s);
      if first.None? then None
      else
        var others := ReadBulks(first.value.1, n - 1);
        if others.None? then None else Some([first.value.0] + others.value)
  }

  function ReadCommand(wire: Bytes): Option<seq<Bytes>> {
    var header := ReadHeader(wire, '*');
    if header.None? then None else ReadBulks(header.value.1, header.value.0)
  }

  lemma {:induction false} LineEndAt(line: Bytes, rest: Bytes)
    requires forall i :: 0 <= i < |line| ==> line[i] != '\r'
    ensures LineEnd(line + CRLF + rest) == |line|
  {
    if line != [] {
      LineEndAt(line[1..], rest);
      assert (line + CRLF + rest)[1..] == line[1..] + CRLF + rest;
    } else {
      assert line + CRLF + rest == CRLF + rest;
    }
  }

  lemma HeaderRoundTrip(kind: char, n: nat, rest: Bytes)
    requires kind != '\r'
    ensures ReadHeader([kind] + Numeral(n) + CRLF + rest, kind) == Some((n, rest))
  {
    var line := [kind] + Numeral(n);
    LineEndAt(line, rest);
    NumeralRoundTrip(n);
    assert line[1..] == Numeral(n);
    assert (line + CRLF + rest)[1..|line|] == line[1..];
    assert (line + CRLF + rest)[|line| + 2..] == rest;
  }

  lemma BulkRoundTrip(part: Bytes, rest: Bytes)
    ensures ReadBulk(Bulk(part) + rest) == Some((part, rest))
  {
    var tail := part + CRLF + rest;
    assert Bulk(part) + rest == ['$'] + Numeral(|part|) + CRLF + tail;
    HeaderRoundTrip('$', |part|, tail);
    assert tail[..|part|] == part;
    assert tail[|part|..|part| + 2] == CRLF;
    assert tail[|part| + 2..] == rest;
  }

  lemma BulksCons(parts: seq<Bytes>)
    requires parts != []
    ensures Bulks(parts) == Bulk(parts[0]) + Bulks(parts[1..])
  {
    hide Bulk;
    if |parts| > 1 {
      var last := |parts| - 1;
      BulksCons(parts[..last]);
      assert parts[..last][1..] == parts[1..][..last - 1];
    } else {
      assert parts[..0] == [] && parts[1..] == [];
    }
  }

  lemma {:induction false} BulksRoundTrip(parts: seq<Bytes>)
    ensures ReadBulks(Bulks(parts), |parts|) == Some(parts)
  {
    if parts != [] {
      BulksCons(parts);
      BulkRoundTrip(parts[0], Bulks(parts[1..]));
      BulksRoundTrip(parts[1..]);
      assert parts == [parts[0]] + parts[1..];
    }
  }

  /** A server that reads the command as an array of bulk strings gets the parts back, whatever
      bytes they hold. */
  lemma CommandRoundTrip(parts: seq<Bytes>)
    ensures ReadCommand("*" + Numeral(|parts|) + CRLF + Bulks(parts)) == Some(parts)
  {
    HeaderRoundTrip('*', |parts|, Bulks(parts));
    BulksRoundTrip(parts);
  }

  // ------------------------------------------------------------------ the reply reader

  // What JavaScript's Number makes of a text.
  datatype Number = NaN | Finite(value: real) | Infinite(negative: bool)

  datatype Outcome = Text(text: Bytes) | Integer(number: Number) | Null | Failure(message: Bytes)

  function Truncated(x: real): int {
    if x >= 0.0 then x.Floor else -(-x).Floor
  }

  function Clamp(i: int, size: nat): nat {
    if i < 0 then 0 else if i > size then size else i
  }

  // Buffer.subarray: negative positions count from the end, a crossed range is empty.
  function Subarray(s: Bytes, start: nat, end: int): Bytes {
    var from, to := Clamp(start, |s|), Clamp(if end < 0 then |s| + end else end, |s|);
    if from <= to then s[from..to] else []
  }

  // Whether a payload of this length, from this position on, and its CRLF have arrived.
  predicate Arrived(size: nat, from: nat, length: Number) {
    match length
    case NaN => false
    case Finite(x) => size as real >= from as real + x + 2.0
    case Infinite(negative) => negative
  }

  // Where the slice of the payload ends: positions are truncated, and minus infinity is the start.
  function PayloadEnd(from: nat, length: Number): int {
    if length.Finite? then Truncated(from as real + length.value) else 0
  }

  /** What the data handler makes of everything received so far; None is to wait for more.
      `number` is JavaScript's Number on a line. */
  function Reply(buffer: Bytes, number: Bytes -> Number): Option<Outcome> {
    var end := LineEnd(buffer);
    if end == |buffer| then None
    else
      var line := Subarray(buffer, 1, end);
      if buffer[0] == '+' then Some(Text(line))
      else if buffer[0] == ':' then Some(Integer(number(line)))
      else if buffer[0] == '$' then
        var length := number(line);
        if length == Finite(-1.0) then Some(Null)
        else if Arrived(|buffer|, end + 2, length) then
          Some(Text(Subarray(buffer, end + 2, PayloadEnd(end + 2, length))))
        else None
      else if buffer[0] == '-' then Some(Failure("Redis error: " + line))
      else Some(Failure("Unsupported Redis response type " + [buffer[0]]))
  }

  function Joined(chunks: seq<Bytes>): Bytes {
    if chunks == [] then [] else Joined(chunks[..|chunks| - 1]) + chunks[|chunks| - 1]
  }

  // The first outcome as the chunks arrive one by one.
  function FirstReply(chunks: seq<Bytes>, number: Bytes -> Number): Option<Outcome> {
    if chunks == [] then None
    else
      var earlier := FirstReply(chunks[..|chunks| - 1], number);
      if earlier.Some? then earlier else Reply(Joined(chunks), number)
  }

  lemma NoLineNoReply(buffer: Bytes, number: Bytes -> Number)
    ensures LineEnd(buffer) == |buffer| ==> Reply(buffer, number).None?
  {
  }

  /** Feeds the chunks to the data handler until it settles; `used` chunks were consumed. */
  method ReadResponse(chunks: seq<Bytes>, number: Bytes -> Number) returns (outcome: Option<Outcome>, used: nat)
    ensures outcome == FirstReply(chunks, number)
    ensures used <= |chunks| && (outcome.Some? ==> used > 0 && outcome == Reply(Joined(chunks[..used]), number))
    ensures forall k :: 0 <= k < used ==> FirstReply(chunks[..k], number).None?
  {
    hide Reply, LineEnd;
    var buffer := [];
    outcome, used := None, 0;
    while used < |chunks| && outcome.None?
      invariant used <= |chunks| && buffer == Joined(chunks[..used])
      invariant outcome == FirstReply(chunks[..used], number)
      invariant outcome.Some? ==> used > 0 && outcome == Reply(Joined(chunks[..used]), number)
      invariant forall k :: 0 <= k < used ==> FirstReply(chunks[..k], number).None?
    {
      assert chunks[..used + 1][..used] == chunks[..used];
      buffer := buffer + chunks[used];
      used := used + 1;
      NoLineNoReply(buffer, number);
      if LineEnd(buffer) < |buffer| {
        outcome := Reply(buffer, number);
      }
    }
    FirstReplyStays(chunks, used, number);
  }

  lemma {:induction false} FirstReplyStays(chunks: seq<Bytes>, k: nat, number: Bytes -> Number)
    requires k <= |chunks| && (k == |chunks| || FirstReply(chunks[..k], number).Some?)
    ensures FirstReply(chunks[..k], number) == FirstReply(chunks, number)
  {
    if k == |chunks| {
      assert chunks[..k] == chunks;
    } else {
      var shorter := chunks[..|chunks| - 1];
      assert shorter[..k] == chunks[..k];
      FirstReplyStays(shorter, k, number);
    }
  }

  // ------------------------------------------------------------------ chunking

  /** A bulk header with a length below -1 whose slice would count from the end of whatever has
      arrived: no server sends one. */
  predicate CountsFromTheEnd(reply: Bytes, number: Bytes -> Number) {
    var end := LineEnd(reply);
    && end < |reply| && reply[0] == '$'
    && var last := PayloadEnd(end + 2, number(Subarray(reply, 1, end)));
       last < 0 && |reply| + last > end + 2
  }

  /** It happens: the length -9 and six bytes after the header. */
  lemma SplittingCanMatter(number: Bytes -> Number)
    requires number("-9") == Finite(-9.0)
    ensures CountsFromTheEnd("$-9\r\nabcdef\r\n", number)
    ensures FirstReply(["$-9\r\n", "abcdef\r\n"], number) == Some(Text(""))
    ensures FirstReply(["$-9\r\nabcdef\r\n"], number) == Some(Text("abcd"))
  {
    hide *;
    var header, rest := "$-9\r\n", "abcdef\r\n";
    assert header + rest == "$-9\r\nabcdef\r\n";
    assert header + "" == header;
    MinusNine("", number);
    MinusNine(rest, number);
    FourFromTheEnd();
    OneChunk(header + rest, number);
    TwoChunks(header, rest, number);
  }

  lemma FourFromTheEnd()
    ensures Subarray("$-9\r\n", 5, -4) == "" && Subarray("$-9\r\nabcdef\r\n", 5, -4) == "abcd"
  {
  }

  lemma MinusNine(rest: Bytes, number: Bytes -> Number)
    requires number("-9") == Finite(-9.0)
    ensures var reply := "$-9\r\n" + rest;
            && Reply(reply, number) == Some(Text(Subarray(reply, 5, -4)))
            && (CountsFromTheEnd(reply, number) <==> |rest| > 4)
  {
    var reply := "$-9\r\n" + rest;
    LineEndAt("$-9", rest);
    assert "$-9" + CRLF + rest == reply;
    assert reply[1..3] == "-9";
    assert PayloadEnd(5, Finite(-9.0)) == -4;
  }

  lemma {:induction false} LineEndIsKept(s: Bytes, more: Bytes)
    requires LineEnd(s) < |s|
    ensures LineEnd(s + more) == LineEnd(s)
  {
    if !(s[0] == '\r' && s[1] == '\n') {
      LineEndIsKept(s[1..], more);
      assert (s + more)[1..] == s[1..] + more;
    }
  }

  lemma MoreBytesChangeNothing(s: Bytes, more: Bytes, number: Bytes -> Number)
    requires Reply(s, number).Some? && !CountsFromTheEnd(s + more, number)
    ensures Reply(s + more, number) == Reply(s, number)
  {
    LineEndIsKept(s, more);
    var end := LineEnd(s);
    assert Subarray(s, 1, end) == Subarray(s + more, 1, end);
    if s[0] == '$' {
      var length := number(Subarray(s, 1, end));
      if length != Finite(-1.0) {
        SliceStays(s, more, end + 2, length);
      }
    }
  }

  // An arrived payload stays, unless its end counts from the end and the longer buffer reaches it.
  lemma SliceStays(s: Bytes, more: Bytes, from: nat, length: Number)
    requires from <= |s| && Arrived(|s|, from, length)
    requires PayloadEnd(from, length) >= 0 || |s + more| + PayloadEnd(from, length) <= from
    ensures Arrived(|s + more|, from, length)
    ensures Subarray(s, from, PayloadEnd(from, length)) == Subarray(s + more, from, PayloadEnd(from, length))
  {
    var last := PayloadEnd(from, length);
    assert last <= |s|;
    if from <= last {
      assert (s + more)[from..last] == s[from..last];
    }
  }

  lemma {:induction false} FirstReplyWhere(chunks: seq<Bytes>, number: Bytes -> Number) returns (k: nat)
    ensures k <= |chunks| && FirstReply(chunks, number) == Reply(Joined(chunks[..k]), number)
    ensures FirstReply(chunks, number).None? ==> k == |chunks|
  {
    k := |chunks|;
    assert chunks[..k] == chunks;
    if chunks != [] {
      var shorter := chunks[..|chunks| - 1];
      if FirstReply(shorter, number).Some? {
        k := FirstReplyWhere(shorter, number);
        assert shorter[..k] == chunks[..k];
      }
    }
  }

  lemma {:induction false} JoinedPrefix(chunks: seq<Bytes>, k: nat)
    requires k <= |chunks|
    ensures Joined(chunks[..k]) <= Joined(chunks)
  {
    if k == |chunks| {
      assert chunks[..k] == chunks;
    } else {
      var shorter := chunks[..|chunks| - 1];
      assert shorter[..k] == chunks[..k];
      JoinedPrefix(shorter, k);
    }
  }

  lemma WholeReplyDecides(chunks: seq<Bytes>, number: Bytes -> Number)
    requires !CountsFromTheEnd(Joined(chunks), number)
    ensures FirstReply(chunks, number) == Reply(Joined(chunks), number)
  {
    var k := FirstReplyWhere(chunks, number);
    assert chunks[..|chunks|] == chunks;
    JoinedPrefix(chunks, k);
    var early, all := Joined(chunks[..k]), Joined(chunks);
    if FirstReply(chunks, number).Some? {
      assert early + all[|early|..] == all;
      MoreBytesChangeNothing(early, all[|early|..], number);
    }
  }

  ghost predicate ChunkingIsIrrelevant(reply: Bytes, number: Bytes -> Number) {
    forall a: seq<Bytes>, b: seq<Bytes> :: Joined(a) == reply == Joined(b) ==>
        FirstReply(a, number) == FirstReply(b, number)
  }

  lemma OneChunk(a: Bytes, number: Bytes -> Number)
    ensures Joined([a]) == a && FirstReply([a], number) == Reply(a, number)
  {
    assert [a][..0] == [];
    assert Joined([a]) == [] + a == a;
  }

  lemma TwoChunks(a: Bytes, b: Bytes, number: Bytes -> Number)
    ensures Joined([a, b]) == a + b
    ensures FirstReply([a, b], number) == if Reply(a, number).Some? then Reply(a, number) else Reply(a + b, number)
  {
    assert [a, b][..1] == [a];
    OneChunk(a, number);
  }

  lemma TwoAnswers(reply: Bytes, number: Bytes -> Number)
    requires CountsFromTheEnd(reply, number)
    ensures var header := reply[..LineEnd(reply) + 2];
            Reply(header, number) == Some(Text([])) && Reply(reply, number).Some? &&
                Reply(reply, number) != Reply(header, number)
  {
    var end := LineEnd(reply);
    var header, rest := reply[..end + 2], reply[end + 2..];
    assert header + rest == reply;
    LineEndOfPrefix(header, rest);
    assert Subarray(header, 1, end) == Subarray(reply, 1, end);
    var length := number(Subarray(reply, 1, end));
    var last := PayloadEnd(end + 2, length);
    assert length.value <= -3.0;
    assert Subarray(header, end + 2, last) == [];
    assert |Subarray(reply, end + 2, last)| == |reply| + last - end - 2;
  }

  lemma SplittingMatters(reply: Bytes, number: Bytes -> Number)
    requires CountsFromTheEnd(reply, number)
    ensures !ChunkingIsIrrelevant(reply, number)
  {
    var header, rest := reply[..LineEnd(reply) + 2], reply[LineEnd(reply) + 2..];
    assert header + rest == reply;
    TwoAnswers(reply, number);
    OneChunk(reply, number);
    TwoChunks(header, rest, number);
    hide *;
    TwoSplits([reply], [header, rest], reply, number);
  }

  lemma TwoSplits(a: seq<Bytes>, b: seq<Bytes>, reply: Bytes, number: Bytes -> Number)
    requires Joined(a) == reply == Joined(b) && FirstReply(a, number) != FirstReply(b, number)
    ensures !ChunkingIsIrrelevant(reply, number)
  {
  }

  /** The outcome is the same for every way of splitting the received bytes into chunks, and is
      the outcome of all of them at once, except exactly for a bulk header that counts from
      the end of the buffer. */
  lemma ChunkingMattersExactlyWhen(reply: Bytes, number: Bytes -> Number)
    ensures ChunkingIsIrrelevant(reply, number) <==> !CountsFromTheEnd(reply, number)
    ensures !CountsFromTheEnd(reply, number) ==>
      forall chunks: seq<Bytes> :: Joined(chunks) == reply ==> FirstReply(chunks, number) == Reply(reply, number)
  {
    if CountsFromTheEnd(reply, number) {
      SplittingMatters(reply, number);
    } else {
      hide Reply, FirstReply, CountsFromTheEnd, Joined;
      forall chunks: seq<Bytes> | Joined(chunks) == reply
        ensures FirstReply(chunks, number) == Reply(reply, number)
      {
        WholeReplyDecides(chunks, number);
      }
    }
  }

  lemma {:induction false} LineEndOfPrefix(header: Bytes, rest: Bytes)
    requires |header| >= 2 && LineEnd(header + rest) == |header| - 2
    ensures LineEnd(header) == |header| - 2
  {
    if |header| > 2 {
      assert (header + rest)[1..] == header[1..] + rest;
      LineEndOfPrefix(header[1..], rest);
    }
  }

  // Once the header of a bulk reply has arrived, the rest decides.
  lemma HeaderArrived(s: Bytes, digits: Bytes, some: Bytes, n: nat, number: Bytes -> Number)
    requires number(digits) == Finite(n as real) && forall i :: 0 <= i < |digits| ==> IsDigit(digits[i])
    requires s == "$" + digits + CRLF + some
    ensures Reply(s, number) == if |some| >= n + 2 then Some(Text(some[..n])) else None
  {
    hide *;
    HeaderEnds(digits, some);
    Pieces(digits, some, n);
    BulkHeader(s, number, |digits| + 1, n);
  }

  lemma HeaderEnds(digits: Bytes, some: Bytes)
    requires forall i :: 0 <= i < |digits| ==> IsDigit(digits[i])
    ensures LineEnd("$" + digits + CRLF + some) == |digits| + 1
  {
    LineEndAt("$" + digits, some);
  }

  lemma BulkHeader(s: Bytes, number: Bytes -> Number, end: nat, n: nat)
    requires s != [] && s[0] == '$' && LineEnd(s) == end < |s| && number(Subarray(s, 1, end)) == Finite(n as real)
    ensures Reply(s, number) == if |s| >= end + 2 + n + 2 then Some(Text(Subarray(s, end + 2, end + 2 + n))) else None
  {
    hide Arrived, PayloadEnd, Subarray;
    WholeLength(|s|, end + 2, n);
  }

  lemma WholeLength(size: nat, from: nat, n: nat)
    ensures Arrived(size, from, Finite(n as real)) <==> size >= from + n + 2
    ensures PayloadEnd(from, Finite(n as real)) == from + n
  {
    assert from as real + n as real == (from + n) as real;
  }

  lemma Within(s: Bytes, from: nat, to: nat)
    requires from <= to <= |s|
    ensures Subarray(s, from, to) == s[from..to]
  {
  }

  lemma Pieces(digits: Bytes, some: Bytes, n: nat)
    ensures var s, end := "$" + digits + CRLF + some, |digits| + 1;
            && s[0] == '$' && |s| == end + 2 + |some| && Subarray(s, 1, end) == digits
            && (n <= |some| ==> Subarray(s, end + 2, end + 2 + n) == some[..n])
  {
    hide Subarray;
    var s, end := "$" + digits + CRLF + some, |digits| + 1;
    Within(s, 1, end);
    assert s[1..end] == digits;
    if n <= |some| {
      Within(s, end + 2, end + 2 + n);
      assert s[end + 2..end + 2 + n] == some[..n];
    }
  }

  lemma HeaderMissing(head: Bytes, tail: Bytes, received: nat)
    requires forall i :: 0 <= i < |head| ==> head[i] != '\r'
    requires received < |head| + 2
    ensures var s := (head + CRLF + tail)[..received]; LineEnd(s) == |s|
  {
    var all := head + CRLF + tail;
    var s := all[..received];
    LineEndAt(head, tail);
    assert s + all[received..] == all;
    if LineEnd(s) < |s| {
      LineEndIsKept(s, all[received..]);
    }
  }

  /** A bulk reply resolves exactly when its last byte arrives, with the payload. */
  lemma BulkReplyResolvesAtItsEnd(payload: Bytes, number: Bytes -> Number, received: nat)
    requires number(Numeral(|payload|)) == Finite(|payload| as real)
    requires received <= |Bulk(payload)|
    ensures Reply(Bulk(payload)[..received], number) ==
            if received == |Bulk(payload)| then Some(Text(payload)) else None
  {
    var head := "$" + Numeral(|payload|);
    var tail := payload + CRLF;
    assert Bulk(payload) == head + CRLF + tail;
    if received < |head| + 2 {
      HeaderMissing(head, tail, received);
    } else {
      var some := tail[..received - |head| - 2];
      assert Bulk(payload)[..received] == head + CRLF + some;
      HeaderArrived(Bulk(payload)[..received], Numeral(|payload|), some, |payload|, number);
      assert received == |Bulk(payload)| ==> some == tail;
    }
  }

  // ------------------------------------------------------------------ the other replies

  // No CRLF.
  predicate Unbroken(line: Bytes) {
    forall i, j :: 0 <= i && j == i + 1 < |line| ==> !(line[i] == '\r' && line[j] == '\n')
  }

  lemma {:induction false} UnbrokenHasNoEnd(line: Bytes)
    requires Unbroken(line)
    ensures LineEnd(line) == |line|
  {
    if |line| >= 2 {
      UnbrokenHasNoEnd(line[1..]);
    }
  }

  lemma {:induction false} FirstBreak(line: Bytes, rest: Bytes)
    requires Unbroken(line)
    ensures LineEnd(line + CRLF + rest) == |line|
  {
    var s := line + CRLF + rest;
    if line == [] {
      assert s[0] == '\r' && s[1] == '\n';
    } else {
      FirstBreak(line[1..], rest);
      assert s[1..] == line[1..] + CRLF + rest;
    }
  }

  /** Nothing is decided before the first line is complete, and then its first byte decides: a
      status is its text, a number what it reads as, an error rejects with its text, a length of -1
      is null, and any byte that stands for nothing rejects. What follows the line plays no part. */
  lemma FirstLineDecides(kind: char, text: Bytes, rest: Bytes, number: Bytes -> Number)
    requires Unbroken([kind] + text)
    ensures Reply([kind] + text, number) == None
    ensures var outcome := Reply([kind] + text + CRLF + rest, number);
            && (kind == '+' ==> outcome == Some(Text(text)))
            && (kind == ':' ==> outcome == Some(Integer(number(text))))
            && (kind == '-' ==> outcome == Some(Failure("Redis error: " + text)))
            && (kind == '$' && number(text) == Finite(-1.0) ==> outcome == Some(Null))
            && (kind !in "+:-$" ==> outcome == Some(Failure("Unsupported Redis response type " + [kind])))
  {
    var line := [kind] + text;
    UnbrokenHasNoEnd(line);
    FirstBreak(line, rest);
    var buffer := line + CRLF + rest;
    Within(buffer, 1, |line|);
    assert buffer[1..|line|] == text;
    assert '+' in "+:-$" && ':' in "+:-$" && '-' in "+:-$" && '$' in "+:-$";
    hide LineEnd, Subarray, Arrived, PayloadEnd;
  }
}
