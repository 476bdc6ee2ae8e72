/**
  Publication of a claimed batch to EventBridge.  `size` gives an event's entry size in bytes.
*/
module EventPublisher {
  import opened Wrappers
  import opened Outbox

  const MAXIMUM_ENTRY_BYTES: nat := 240 * 1024
  const MAXIMUM_ENTRIES: nat := 10

  datatype PublishResult = PublishResult(eventId: EventId, success: bool, reference: Option<string>,
    error: Option<string>)

  datatype Entry = Entry(errorCode: Option<string>, errorMessage: Option<string>, eventId: Option<string>)

  datatype Response = Thrown(message: string) | Replied(entries: seq<Entry>)

  // The reply to the n-th request of a call, for its entries, and the redaction of error texts.
  datatype Transport = Transport(send: (nat, seq<Ticket>) -> Response, sanitize: string -> string)

  // JavaScript truthiness of an optional string.
  predicate Truthy(text: Option<string>) {
    text.Some? && text.value != ""
  }

  function Oversized(events: seq<Ticket>, size: Ticket -> nat): seq<Ticket> {
    if events == [] then []
    else (if size(events[0]) > MAXIMUM_ENTRY_BYTES then [events[0]] else []) + Oversized(events[1..], size)
  }

  function Deliverable(events: seq<Ticket>, size: Ticket -> nat): seq<Ticket> {
    if events == [] then []
    else (if size(events[0]) <= MAXIMUM_ENTRY_BYTES then [events[0]] else []) + Deliverable(events[1..], size)
  }

  function TooLarge(event: Ticket): PublishResult {
    PublishResult(event.event, false, None, Some("Event exceeds the configured EventBridge entry-size safety limit"))
  }

  // The verdict on the event at position `index` of a request.
  function Verdict(event: Ticket, response: Response, index: nat, sanitize: string -> string): PublishResult {
    match response
    case Thrown(message) => PublishResult(event.event, false, None, Some(sanitize(message)))
    case Replied(entries) =>
      if index < |entries| && Truthy(entries[index].errorCode) then
        var message := if entries[index].errorMessage.Some? then entries[index].errorMessage.value
                       else "EventBridge rejected the event";
        PublishResult(event.event, false, None, Some(sanitize(entries[index].errorCode.value + ": " + message)))
      else if index < |entries| && Truthy(entries[index].eventId) then
        PublishResult(event.event, true, entries[index].eventId, None)
      else PublishResult(event.event, false, None, Some("EventBridge returned no result for the event"))
  }

  // The events of the g-th request.
  function Group(events: seq<Ticket>, g: nat): seq<Ticket>
    requires g * MAXIMUM_ENTRIES <= |events|
  {
    events[g * MAXIMUM_ENTRIES..if (g + 1) * MAXIMUM_ENTRIES <= |events| then (g + 1) * MAXIMUM_ENTRIES else |events|]
  }

  // The result for the j-th deliverable event.
  function Delivery(events: seq<Ticket>, j: nat, transport: Transport): PublishResult
    requires j < |events|
  {
    var g := j / MAXIMUM_ENTRIES;
    Verdict(events[j], transport.send(g, Group(events, g)), j % MAXIMUM_ENTRIES, transport.sanitize)
  }

  function Concat<T>(groups: seq<seq<T>>): seq<T> {
    if groups == [] then [] else Concat(groups[..|groups| - 1]) + groups[|groups| - 1]
  }

  lemma NothingToConcat<T>()
    ensures Concat<T>([]) == []
  {
  }

  lemma ConcatNext<T>(groups: seq<seq<T>>, group: seq<T>)
    ensures Concat(groups + [group]) == Concat(groups) + group
  {
    assert (groups + [group])[..|groups|] == groups;
  }

  method Batches(events: seq<Ticket>) returns (groups: seq<seq<Ticket>>)
    ensures Concat(groups) == events
    ensures forall g :: 0 <= g < |groups| ==> g * MAXIMUM_ENTRIES < |events| && groups[g] == Group(events, g)
    ensures forall g :: 0 <= g < |groups| ==> 1 <= |groups[g]| <= MAXIMUM_ENTRIES
  {
    hide Concat;
    NothingToConcat<Ticket>();
    groups := [];
    var index := 0;
    while index < |events|
      invariant index == |groups| * MAXIMUM_ENTRIES
      invariant Concat(groups) == events[..if index <= |events| then index else |events|]
      invariant forall g :: 0 <= g < |groups| ==> g * MAXIMUM_ENTRIES < |events| && groups[g] == Group(events, g)
    {
      var end := if index + MAXIMUM_ENTRIES <= |events| then index + MAXIMUM_ENTRIES else |events|;
      var group := events[index..end];
      ConcatNext(groups, group);
      assert events[..index] + group == events[..end];
      groups := groups + [group];
      index := index + MAXIMUM_ENTRIES;
    }
  }

  // The refusals come first, then the verdicts on the first `done` deliverable events in order.
  predicate Answered(results: seq<PublishResult>, events: seq<Ticket>, size: Ticket -> nat,
                     transport: Transport, done: nat)
    requires done <= |Deliverable(events, size)|
  {
    var large, small := Oversized(events, size), Deliverable(events, size);
    && |results| == |large| + done
    && (forall k :: 0 <= k < |large| ==> results[k] == TooLarge(large[k]))
    && (forall j :: 0 <= j < done ==> results[|large| + j] == Delivery(small, j, transport))
  }

  // All groups before g are answered, and of that one the first `index` events.
  predicate AnsweredIn(results: seq<PublishResult>, events: seq<Ticket>, size: Ticket -> nat,
                       transport: Transport, g: nat, index: nat) {
    var done := g * MAXIMUM_ENTRIES + index;
    done <= |Deliverable(events, size)| && Answered(results, events, size, transport, done)
  }

  predicate AnsweredBefore(results: seq<PublishResult>, events: seq<Ticket>, size: Ticket -> nat,
                           transport: Transport, g: nat) {
    var all := |Deliverable(events, size)|;
    Answered(results, events, size, transport, if g * MAXIMUM_ENTRIES <= all then g * MAXIMUM_ENTRIES else all)
  }

  lemma AnswerFirst(results: seq<PublishResult>, events: seq<Ticket>, size: Ticket -> nat, transport: Transport)
    requires |results| == |Oversized(events, size)|
    requires forall k :: 0 <= k < |results| ==> results[k] == TooLarge(Oversized(events, size)[k])
    ensures AnsweredBefore(results, events, size, transport, 0)
  {
  }

  lemma AnswerGroup(results: seq<PublishResult>, events: seq<Ticket>, size: Ticket -> nat, transport: Transport,
                    g: nat)
    requires g * MAXIMUM_ENTRIES < |Deliverable(events, size)|
    ensures AnsweredBefore(results, events, size, transport, g) ==> AnsweredIn(results, events, size, transport, g, 0)
    ensures AnsweredIn(results, events, size, transport, g, |Group(Deliverable(events, size), g)|) ==>
            AnsweredBefore(results, events, size, transport, g + 1)
  {
    hide Answered, Deliverable;
  }

  lemma AnswerNext(results: seq<PublishResult>, events: seq<Ticket>, size: Ticket -> nat, transport: Transport,
                   g: nat, index: nat)
    requires g * MAXIMUM_ENTRIES < |Deliverable(events, size)| && index < |Group(Deliverable(events, size), g)|
    requires AnsweredIn(results, events, size, transport, g, index)
    ensures var group := Group(Deliverable(events, size), g);
            var verdict := Verdict(group[index], transport.send(g, group), index, transport.sanitize);
            AnsweredIn(results + [verdict], events, size, transport, g, index + 1)
  {
    hide *;
    DeliveryInGroup(Deliverable(events, size), transport, g, index);
    AnswerOne(results, events, size, transport, g, index);
  }

  lemma DeliveryInGroup(events: seq<Ticket>, transport: Transport, g: nat, index: nat)
    requires g * MAXIMUM_ENTRIES < |events| && index < |Group(events, g)|
    ensures g * MAXIMUM_ENTRIES + index < |events|
    ensures var group := Group(events, g);
            Delivery(events, g * MAXIMUM_ENTRIES + index, transport) ==
            Verdict(group[index], transport.send(g, group), index, transport.sanitize)
  {
    hide Verdict;
    Position(g, index);
  }

  lemma AnswerOne(results: seq<PublishResult>, events: seq<Ticket>, size: Ticket -> nat, transport: Transport,
                  g: nat, index: nat)
    requires g * MAXIMUM_ENTRIES + index < |Deliverable(events, size)|
    requires AnsweredIn(results, events, size, transport, g, index)
    ensures var verdict := Delivery(Deliverable(events, size), g * MAXIMUM_ENTRIES + index, transport);
            AnsweredIn(results + [verdict], events, size, transport, g, index + 1)
  {
    hide Delivery, Oversized, Deliverable, TooLarge;
  }

  lemma AnswerAll(results: seq<PublishResult>, events: seq<Ticket>, size: Ticket -> nat, transport: Transport,
                  groups: seq<seq<Ticket>>)
    requires Concat(groups) == Deliverable(events, size)
    requires forall g :: 0 <= g < |groups| ==>
             g * MAXIMUM_ENTRIES < |Deliverable(events, size)| && groups[g] == Group(Deliverable(events, size), g)
    requires AnsweredBefore(results, events, size, transport, |groups|)
    ensures Answered(results, events, size, transport, |Deliverable(events, size)|)
  {
    hide Answered, Deliverable, Concat;
    GroupCount(Deliverable(events, size), groups);
  }

  /** Every event gets exactly one result: a refusal when it is too large, and otherwise the
      verdict read from the reply entry at its own position in its own request. */
  method Publish(events: seq<Ticket>, size: Ticket -> nat, transport: Transport)
    returns (results: seq<PublishResult>)
    ensures Answered(results, events, size, transport, |Deliverable(events, size)|)
  {
    hide *;
    var large, small := Oversized(events, size), Deliverable(events, size);
    results := seq(|large|, k requires 0 <= k < |large| => TooLarge(large[k]));
    AnswerFirst(results, events, size, transport);
    var groups := Batches(small);
    for g := 0 to |groups|
      invariant AnsweredBefore(results, events, size, transport, g)
    {
      var response := transport.send(g, groups[g]);
      AnswerGroup(results, events, size, transport, g);
      for index := 0 to |groups[g]|
        invariant AnsweredIn(results, events, size, transport, g, index)
      {
        AnswerNext(results, events, size, transport, g, index);
        results := results + [Verdict(groups[g][index], response, index, transport.sanitize)];
      }
      AnswerGroup(results, events, size, transport, g);
    }
    AnswerAll(results, events, size, transport, groups);
  }

  lemma {:induction false} ConcatLength(events: seq<Ticket>, groups: seq<seq<Ticket>>)
    requires forall g :: 0 <= g < |groups| ==> g * MAXIMUM_ENTRIES < |events| && groups[g] == Group(events, g)
    ensures |Concat(groups)| == if |groups| * MAXIMUM_ENTRIES <= |events| then |groups| * MAXIMUM_ENTRIES else |events|
  {
    if groups != [] {
      ConcatLength(events, groups[..|groups| - 1]);
    }
  }

  lemma GroupCount(events: seq<Ticket>, groups: seq<seq<Ticket>>)
    requires Concat(groups) == events
    requires forall g :: 0 <= g < |groups| ==> g * MAXIMUM_ENTRIES < |events| && groups[g] == Group(events, g)
    ensures |groups| * MAXIMUM_ENTRIES >= |events|
  {
    ConcatLength(events, groups);
  }

  lemma Position(g: nat, index: nat)
    requires index < MAXIMUM_ENTRIES
    ensures (g * MAXIMUM_ENTRIES + index) / MAXIMUM_ENTRIES == g
    ensures (g * MAXIMUM_ENTRIES + index) % MAXIMUM_ENTRIES == index
  {
  }

  // ------------------------------------------------------------------ which result is whose

  // How many of the first i events are small enough.
  function Rank(events: seq<Ticket>, size: Ticket -> nat, i: nat): nat
    requires i <= |events|
  {
    if i == 0 then 0 else Rank(events, size, i - 1) + if size(events[i - 1]) <= 245_760 then 1 else 0
  }

  lemma {:induction false} RankFromFront(events: seq<Ticket>, size: Ticket -> nat, i: nat)
    requires 1 <= i <= |events|
    ensures Rank(events, size, i) == (if size(events[0]) <= 245_760 then 1 else 0) + Rank(events[1..], size, i - 1)
  {
    if i > 1 {
      RankFromFront(events, size, i - 1);
      assert events[1..][i - 2] == events[i - 1];
    }
  }

  /** The events that are sent are exactly those of at most 245760 bytes, in order; the others are
      refused. */
  lemma {:induction false} SentByRank(events: seq<Ticket>, size: Ticket -> nat, i: nat)
    requires i < |events|
    ensures size(events[i]) <= 245_760 ==>
            Rank(events, size, i) < |Deliverable(events, size)| &&
            Deliverable(events, size)[Rank(events, size, i)] == events[i]
    ensures size(events[i]) > 245_760 ==> events[i] in Oversized(events, size)
    ensures |Deliverable(events, size)| == Rank(events, size, |events|)
  {
    RankFromFront(events, size, |events|);
    if i > 0 {
      SentByRank(events[1..], size, i - 1);
      RankFromFront(events, size, i);
      assert events[1..][i - 1] == events[i];
    } else if |events| > 1 {
      SentByRank(events[1..], size, 0);
    }
  }

  // The reply's entry for the event of a rank: the one at its place in the request of its ten.
  function EntryFor(sent: seq<Ticket>, rank: nat, send: (nat, seq<Ticket>) -> Response): Option<Entry>
    requires rank < |sent|
  {
    var from := rank - rank % 10;
    var request := if from + 10 <= |sent| then sent[from..from + 10] else sent[from..];
    match send(rank / 10, request)
    case Thrown(_) => None
    case Replied(entries) => if rank % 10 < |entries| then Some(entries[rank % 10]) else None
  }

  // Accepted: an id and no error code.
  predicate Accepts(entry: Option<Entry>) {
    && entry.Some?
    && (entry.value.errorCode.None? || entry.value.errorCode.value == "")
    && entry.value.eventId.Some? && entry.value.eventId.value != ""
  }

  // Why an event that was sent is not accepted: what the call threw, its entry's error code with the
  // message or a standing text, or that there is nothing about it in the reply.
  function WhyNot(sent: seq<Ticket>, rank: nat, send: (nat, seq<Ticket>) -> Response, sanitize: string -> string)
    : string
    requires rank < |sent|
  {
    var from := rank - rank % 10;
    var request := if from + 10 <= |sent| then sent[from..from + 10] else sent[from..];
    match send(rank / 10, request)
    case Thrown(message) => sanitize(message)
    case Replied(_) =>
      var entry := EntryFor(sent, rank, send);
      if entry.Some? && entry.value.errorCode.Some? && entry.value.errorCode.value != "" then
        sanitize(entry.value.errorCode.value + ": " +
          if entry.value.errorMessage.Some? then entry.value.errorMessage.value else "EventBridge rejected the event")
      else "EventBridge returned no result for the event"
  }

  /** The result for an event is a success if and only if its own entry of its own request has an id
      and no error code, and the reference is that id; otherwise it says why. */
  lemma SuccessExactlyWhen(sent: seq<Ticket>, rank: nat, transport: Transport)
    requires rank < |sent|
    ensures var result, entry := Delivery(sent, rank, transport), EntryFor(sent, rank, transport.send);
            && result.eventId == sent[rank].event && (result.success <==> Accepts(entry))
            && (result.success ==> result.reference == entry.value.eventId && result.error.None?)
            && (!result.success ==>
                  && result.reference.None?
                  && result.error == Some(WhyNot(sent, rank, transport.send, transport.sanitize)))
  {
    var g, from := rank / 10, rank - rank % 10;
    assert g * MAXIMUM_ENTRIES == from;
    assert Group(sent, g) == if from + 10 <= |sent| then sent[from..from + 10] else sent[from..];
  }

  lemma RefusalIsThere(events: seq<Ticket>, size: Ticket -> nat, transport: Transport, results: seq<PublishResult>,
                       event: Ticket)
    requires Answered(results, events, size, transport, |Deliverable(events, size)|)
    requires event in Oversized(events, size)
    ensures PublishResult(event.event, false, None,
                          Some("Event exceeds the configured EventBridge entry-size safety limit")) in results
  {
    hide Oversized, Deliverable, Delivery;
    var k :| 0 <= k < |Oversized(events, size)| && Oversized(events, size)[k] == event;
    assert results[k] in results;
  }

  lemma DeliveryIsThere(events: seq<Ticket>, size: Ticket -> nat, transport: Transport, results: seq<PublishResult>,
                        rank: nat)
    requires Answered(results, events, size, transport, |Deliverable(events, size)|)
    requires rank < |Deliverable(events, size)|
    ensures Delivery(Deliverable(events, size), rank, transport) in results
  {
    hide Oversized, Deliverable, Delivery;
    assert results[|Oversized(events, size)| + rank] in results;
  }

  /** Every event's result is among the results: the refusal of one that is too large, else that of
      its rank. */
  lemma ResultIsThere(events: seq<Ticket>, size: Ticket -> nat, transport: Transport, results: seq<PublishResult>,
                      i: nat)
    requires Answered(results, events, size, transport, |Deliverable(events, size)|) && i < |events|
    ensures size(events[i]) <= 245_760 ==>
            Rank(events, size, i) < |Deliverable(events, size)| &&
            Deliverable(events, size)[Rank(events, size, i)] == events[i] &&
            Delivery(Deliverable(events, size), Rank(events, size, i), transport) in results
    ensures size(events[i]) > 245_760 ==>
            PublishResult(events[i].event, false, None,
                          Some("Event exceeds the configured EventBridge entry-size safety limit")) in results
  {
    hide *;
    SentByRank(events, size, i);
    if size(events[i]) <= 245_760 {
      DeliveryIsThere(events, size, transport, results, Rank(events, size, i));
    } else {
      RefusalIsThere(events, size, transport, results, events[i]);
    }
  }

  // ------------------------------------------------------------------ conservation

  function EventIds(results: seq<PublishResult>): seq<EventId> {
    seq(|results|, i requires 0 <= i < |results| => results[i].eventId)
  }

  function TicketIds(events: seq<Ticket>): seq<EventId> {
    seq(|events|, i requires 0 <= i < |events| => events[i].event)
  }

  function IdBag(events: seq<Ticket>): multiset<EventId> {
    multiset(TicketIds(events))
  }

  lemma IdBagCons(event: Ticket, events: seq<Ticket>)
    ensures IdBag([event] + events) == multiset{event.event} + IdBag(events)
  {
    assert TicketIds([event] + events) == [event.event] + TicketIds(events);
  }

  lemma {:induction false} PartitionConserves(events: seq<Ticket>, size: Ticket -> nat)
    ensures IdBag(Oversized(events, size)) + IdBag(Deliverable(events, size)) == IdBag(events)
  {
    if events != [] {
      var event, rest := events[0], events[1..];
      var large, small := Oversized(rest, size), Deliverable(rest, size);
      PartitionConserves(rest, size);
      assert events == [event] + rest;
      IdBagCons(event, rest);
      if size(event) > MAXIMUM_ENTRY_BYTES {
        assert Oversized(events, size) == [event] + large && Deliverable(events, size) == small;
        IdBagCons(event, large);
      } else {
        assert Oversized(events, size) == large && Deliverable(events, size) == [event] + small;
        IdBagCons(event, small);
      }
    }
  }

  lemma AnsweredIds(events: seq<Ticket>, size: Ticket -> nat, transport: Transport,
                    results: seq<PublishResult>)
    requires Answered(results, events, size, transport, |Deliverable(events, size)|)
    ensures EventIds(results) == TicketIds(Oversized(events, size)) + TicketIds(Deliverable(events, size))
  {
    hide Oversized, Deliverable, Delivery;
    var large, small := Oversized(events, size), Deliverable(events, size);
    forall j | 0 <= j < |small|
      ensures results[|large| + j].eventId == small[j].event
    {
      DeliveryIsOf(small, j, transport);
    }
    assert EventIds(results)[..|large|] == TicketIds(large);
    assert EventIds(results)[|large|..] == TicketIds(small);
  }

  lemma DeliveryIsOf(events: seq<Ticket>, j: nat, transport: Transport)
    requires j < |events|
    ensures Delivery(events, j, transport).eventId == events[j].event
  {
    hide Group;
  }

  /** The results name exactly the events handed in, each as often as it was. */
  lemma ResultsConserveEvents(events: seq<Ticket>, size: Ticket -> nat, transport: Transport,
                              results: seq<PublishResult>)
    requires Answered(results, events, size, transport, |Deliverable(events, size)|)
    ensures multiset(EventIds(results)) == multiset(TicketIds(events))
  {
    AnsweredIds(events, size, transport, results);
    PartitionConserves(events, size);
  }
}
