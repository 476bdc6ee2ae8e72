// One polling round of a worker: claim a batch, publish it, acknowledge every event.
module OutboxWorker {
  import opened Wrappers
  import opened Outbox
  import opened OutboxRepository
  import opened EventPublisher
  import OutboxSafety
  import Retry

  datatype Config = Config(
    workerId: WorkerId, batchSize: nat, leaseSeconds: nat, maximumAttempts: nat,
    retryBaseSeconds: nat, retryMaximumSeconds: nat)

  const NO_RESULT: string := "Publisher returned no result for the claimed event"

  /** The acknowledgement a result calls for.  `sanitize` redacts credentials from an error and
      `digest` is the first two bytes of the jitter hash. */
  function Acknowledgement(config: Config, ticket: Ticket, result: Option<PublishResult>, now: Instant,
                           sanitize: string -> string, digest: (EventId, nat) -> nat): Action
  {
    if result.Some? && result.value.success then Publish(ticket, result.value.reference)
    else
      var error := if result.Some? && result.value.error.Some? then result.value.error.value else NO_RESULT;
      var delay := Retry.DelaySeconds(ticket.attempt, config.retryBaseSeconds, config.retryMaximumSeconds,
                                      digest(ticket.event, ticket.attempt));
      Fail(ticket, sanitize(error), Retry.NextAttemptAt(now, delay), ticket.attempt >= config.maximumAttempts)
  }

  method Acknowledge(repository: Repository, config: Config, ticket: Ticket, result: Option<PublishResult>,
                     sanitize: string -> string, digest: (EventId, nat) -> nat)
    returns (ghost action: Action)
    modifies repository
    ensures action == Acknowledgement(config, ticket, result, old(repository.clock), sanitize, digest)
    ensures repository.Model() == Step(old(repository.Model()), action)
  {
    action := Acknowledgement(config, ticket, result, repository.clock, sanitize, digest);
    if result.Some? && result.value.success {
      var _ := repository.MarkPublished(ticket, result.value.reference);
      return;
    }
    var deadLetter := ticket.attempt >= config.maximumAttempts;
    var error := sanitize(if result.Some? && result.value.error.Some? then result.value.error.value else NO_RESULT);
    var delay := Retry.DelaySeconds(ticket.attempt, config.retryBaseSeconds, config.retryMaximumSeconds,
                                    digest(ticket.event, ticket.attempt));
    var _ := repository.MarkFailed(ticket, error, Retry.NextAttemptAt(repository.clock, delay), deadLetter);
  }

  // Map construction: a later result for the same event replaces an earlier one.
  function ByEventId(results: seq<PublishResult>): map<EventId, PublishResult> {
    if results == [] then map[]
    else
      var last := results[|results| - 1];
      ByEventId(results[..|results| - 1])[last.eventId := last]
  }

  // `result` is the one and only result for the event.
  predicate Own(results: seq<PublishResult>, event: EventId, result: PublishResult) {
    && result in results && result.eventId == event
    && forall r :: r in results && r.eventId == event ==> r == result
  }

  lemma {:induction false} BagOfDistinct<T>(xs: seq<T>)
    ensures Distinct(xs) <==> forall x :: x in multiset(xs) ==> multiset(xs)[x] == 1
  {
    if xs != [] {
      var rest, last := xs[..|xs| - 1], xs[|xs| - 1];
      BagOfDistinct(rest);
      assert xs == rest + [last];
      assert multiset(xs) == multiset(rest) + multiset{last};
      if Distinct(xs) {
        assert last !in rest;
      } else if Distinct(rest) {
        assert last in rest;
        assert multiset(xs)[last] == 2;
      } else {
        var x :| x in multiset(rest) && multiset(rest)[x] != 1;
        assert multiset(xs)[x] >= 2;
      }
    }
  }

  lemma {:induction false} MapHoldsResults(results: seq<PublishResult>)
    ensures forall event :: event in ByEventId(results) ==>
            ByEventId(results)[event] in results && ByEventId(results)[event].eventId == event
    ensures forall r :: r in results ==> r.eventId in ByEventId(results)
  {
    if results != [] {
      var rest := results[..|results| - 1];
      MapHoldsResults(rest);
      assert results == rest + [results[|results| - 1]];
    }
  }

  lemma EachTicketOwnsAResult(tickets: seq<Ticket>, results: seq<PublishResult>, ticket: Ticket)
    requires multiset(EventIds(results)) == multiset(TicketIds(tickets))
    requires Distinct(EventsOf(tickets)) && ticket in tickets
    ensures ticket.event in ByEventId(results) && Own(results, ticket.event, ByEventId(results)[ticket.event])
  {
    assert EventsOf(tickets) == TicketIds(tickets);
    BagOfDistinct(TicketIds(tickets));
    BagOfDistinct(EventIds(results));
    MapHoldsResults(results);
    var i :| 0 <= i < |tickets| && tickets[i] == ticket;
    assert TicketIds(tickets)[i] in multiset(TicketIds(tickets));
    assert ticket.event in EventIds(results);
    var k :| 0 <= k < |results| && EventIds(results)[k] == ticket.event;
    assert results[k] in results;
    forall r | r in results && r.eventId == ticket.event
      ensures r == results[k]
    {
      var j :| 0 <= j < |results| && results[j] == r;
      assert EventIds(results)[j] == EventIds(results)[k];
    }
  }

  // The worker's acknowledgements with, before each, whatever everybody else did meanwhile.
  function Interleaved(others: nat -> seq<Action>, acks: seq<Action>): seq<Action> {
    if acks == [] then []
    else
      var n := |acks| - 1;
      Interleaved(others, acks[..n]) + others(n) + [acks[n]]
  }

  lemma InterleavedNext(s: Tables, others: nat -> seq<Action>, acks: seq<Action>, ack: Action)
    ensures Run(s, Interleaved(others, acks + [ack])) ==
            Step(Run(Run(s, Interleaved(others, acks)), others(|acks|)), ack)
  {
    assert (acks + [ack])[..|acks|] == acks;
    RunAppend(s, Interleaved(others, acks), others(|acks|));
    RunStep(s, Interleaved(others, acks) + others(|acks|), ack);
  }

  // The worker's redaction of errors and its jitter, and what everybody else does meanwhile.
  datatype World = World(sanitize: string -> string, digest: (EventId, nat) -> nat, others: nat -> seq<Action>)

  // The ack is the acknowledgement of the ticket's own, only result at this moment.
  predicate Answers(config: Config, ticket: Ticket, results: seq<PublishResult>, ack: Action, now: Instant,
                    world: World) {
    var byEventId := ByEventId(results);
    && ticket.event in byEventId
    && Own(results, ticket.event, byEventId[ticket.event])
    && ack == Acknowledgement(config, ticket, Some(byEventId[ticket.event]), now, world.sanitize, world.digest)
  }

  // Each ack, in order, answers its ticket at the moment it is made.
  predicate AllAnswered(config: Config, s: Tables, tickets: seq<Ticket>, results: seq<PublishResult>,
                        acks: seq<Action>, world: World)
  {
    |acks| <= |tickets| && forall i :: 0 <= i < |acks| ==>
      Answers(config, tickets[i], results, acks[i], TimeOf(s, world.others, acks[..i]), world)
  }

  // When the ack after the given ones is made.
  function TimeOf(s: Tables, others: nat -> seq<Action>, acks: seq<Action>): Instant {
    Run(Run(s, Interleaved(others, acks)), others(|acks|)).clock
  }

  lemma AnsweredNext(config: Config, s: Tables, tickets: seq<Ticket>, results: seq<PublishResult>, acks: seq<Action>,
                     ack: Action, world: World)
    requires AllAnswered(config, s, tickets, results, acks, world) && |acks| < |tickets|
    requires Answers(config, tickets[|acks|], results, ack, TimeOf(s, world.others, acks), world)
    ensures AllAnswered(config, s, tickets, results, acks + [ack], world)
  {
    hide Answers, TimeOf;
    forall i | 0 <= i < |acks|
      ensures (acks + [ack])[..i] == acks[..i]
    {
    }
    assert (acks + [ack])[..|acks|] == acks;
  }

  // One acknowledgement, after whatever everybody else did meanwhile.
  method AcknowledgeNext(repository: Repository, config: Config, ticket: Ticket, ghost results: seq<PublishResult>,
                         byEventId: map<EventId, PublishResult>, meanwhile: seq<Action>, world: World)
    returns (ghost ack: Action)
    requires byEventId == ByEventId(results)
    requires ticket.event in byEventId && Own(results, ticket.event, byEventId[ticket.event])
    modifies repository
    ensures Answers(config, ticket, results, ack, Run(old(repository.Model()), meanwhile).clock, world)
    ensures repository.Model() == Step(Run(old(repository.Model()), meanwhile), ack)
  {
    hide Own, Step, Run, ByEventId, Acknowledgement;
    repository.Meanwhile(meanwhile);
    var result := if ticket.event in byEventId then Some(byEventId[ticket.event]) else None;
    ack := Acknowledge(repository, config, ticket, result, world.sanitize, world.digest);
  }

  method AcknowledgeAll(repository: Repository, config: Config, events: seq<Ticket>, results: seq<PublishResult>,
                        world: World)
    returns (ghost acks: seq<Action>)
    requires Distinct(EventsOf(events)) && multiset(EventIds(results)) == multiset(TicketIds(events))
    modifies repository
    ensures |acks| == |events| && AllAnswered(config, old(repository.Model()), events, results, acks, world)
    ensures repository.Model() == Run(old(repository.Model()), Interleaved(world.others, acks))
  {
    ghost var s := repository.Model();
    acks := [];
    var byEventId := ByEventId(results);
    assert Run(s, Interleaved(world.others, [])) == s && AllAnswered(config, s, events, results, [], world);
    hide Own, Step, Run, Interleaved, ByEventId, EventsOf, EventIds, TicketIds, Answers, Distinct, AllAnswered;
    for i := 0 to |events|
      invariant |acks| == i && AllAnswered(config, s, events, results, acks, world)
      invariant repository.Model() == Run(s, Interleaved(world.others, acks))
    {
      EachTicketOwnsAResult(events, results, events[i]);
      ghost var ack := AcknowledgeNext(repository, config, events[i], results, byEventId, world.others(i), world);
      InterleavedNext(s, world.others, acks, ack);
      AnsweredNext(config, s, events, results, acks, ack, world);
      acks := acks + [ack];
    }
  }

  /** The round is a run of the outbox: its claims, then one acknowledgement per claimed event,
      each with that event's own result, however the steps of others fall in between. */
  method ProcessOutbox(repository: Repository, config: Config, visible: seq<EventId>,
                       size: Ticket -> nat, send: (nat, seq<Ticket>) -> Response, world: World)
    returns (processed: nat, ghost claimed: seq<Ticket>, ghost published: seq<PublishResult>, ghost acks: seq<Action>)
    requires Distinct(visible)
    modifies repository
    ensures processed == |claimed| == |acks| <= config.batchSize
    ensures EventsOf(claimed) == Candidates(old(repository.Model()), visible, config.batchSize, config.leaseSeconds)
    ensures Distinct(EventsOf(claimed))
    ensures Answered(published, claimed, size, Transport(send, world.sanitize), |Deliverable(claimed, size)|)
    ensures var afterClaim := Run(old(repository.Model()), ClaimActions(claimed, config.leaseSeconds));
            && (forall t :: t in claimed ==> t.owner == config.workerId && CanPublish(afterClaim, t))
            && AllAnswered(config, afterClaim, claimed, published, acks, world)
            && repository.Model() == Run(afterClaim, Interleaved(world.others, acks))
  {
    ghost var s := repository.Model();
    var events := repository.Claim(config.workerId, visible, config.batchSize, config.leaseSeconds);
    claimed, published, acks, processed := events, [], [], |events|;
    ghost var afterClaim := repository.Model();
    assert Run(afterClaim, Interleaved(world.others, [])) == afterClaim &&
           AllAnswered(config, afterClaim, [], [], [], world);
    hide Run, Step, Candidates, ClaimActions, Interleaved, AllAnswered, Distinct, CanPublish, EventsOf;
    if |events| > 0 {
      var transport := Transport(send, world.sanitize);
      var results := EventPublisher.Publish(events, size, transport);
      published := results;
      ResultsConserveEvents(events, size, transport, results);
      acks := AcknowledgeAll(repository, config, events, results, world);
    }
  }

  // The event's own entry of the reply to its own request; none when it is too large to be sent.
  function OwnEntry(claimed: seq<Ticket>, i: nat, size: Ticket -> nat, send: (nat, seq<Ticket>) -> Response)
    : Option<Entry>
    requires i < |claimed|
  {
    var sent, rank := Deliverable(claimed, size), Rank(claimed, size, i);
    if size(claimed[i]) <= 245_760 && rank < |sent| then EntryFor(sent, rank, send) else None
  }

  function Reason(claimed: seq<Ticket>, i: nat, size: Ticket -> nat, send: (nat, seq<Ticket>) -> Response,
                  sanitize: string -> string): string
    requires i < |claimed|
  {
    var sent, rank := Deliverable(claimed, size), Rank(claimed, size, i);
    if size(claimed[i]) <= 245_760 && rank < |sent| then WhyNot(sent, rank, send, sanitize)
    else "Event exceeds the configured EventBridge entry-size safety limit"
  }

  /** A claimed event is published if and only if EventBridge accepted it: it is small enough to be
      sent and its own entry of its own request has an id and no error code. The reference is that
      id. Otherwise its own ticket fails with the redacted reason, at the backoff's time, as a dead
      letter exactly at the maximum. */
  lemma {:induction false} PublishedExactlyWhen(config: Config, s: Tables, claimed: seq<Ticket>,
                                                published: seq<PublishResult>, acks: seq<Action>, size: Ticket -> nat,
                                                send: (nat, seq<Ticket>) -> Response, world: World, i: nat)
    requires i < |acks| == |claimed| && Distinct(EventsOf(claimed))
    requires Answered(published, claimed, size, Transport(send, world.sanitize), |Deliverable(claimed, size)|)
    requires AllAnswered(config, s, claimed, published, acks, world)
    requires world.digest(claimed[i].event, claimed[i].attempt) <= Retry.DIGEST_MAXIMUM
    ensures var ticket, entry := claimed[i], OwnEntry(claimed, i, size, send);
            if Accepts(entry) then acks[i] == Publish(ticket, entry.value.eventId)
            else
              && acks[i].Fail? && acks[i].ticket == ticket
              && acks[i].error == world.sanitize(Reason(claimed, i, size, send, world.sanitize))
              && (acks[i].deadLetter <==> ticket.attempt >= config.maximumAttempts)
              && Retry.IsBackedOff(TimeOf(s, world.others, acks[..i]), acks[i].nextAttempt, ticket.attempt,
                                   config.retryBaseSeconds, config.retryMaximumSeconds)
  {
    var transport, sent, rank := Transport(send, world.sanitize), Deliverable(claimed, size), Rank(claimed, size, i);
    var now := TimeOf(s, world.others, acks[..i]);
    ResultIsThere(claimed, size, transport, published, i);
    if rank < |sent| {
      SuccessExactlyWhen(sent, rank, transport);
    }
    assert Answers(config, claimed[i], published, acks[i], now, world);
    hide Answered, Deliverable, Rank, EntryFor, WhyNot, Delivery, AllAnswered, TimeOf, Accepts, Distinct, EventsOf,
        ByEventId, Answers;
    NothingAccepted();
    var entry := OwnEntry(claimed, i, size, send);
    AnswerIs(config, claimed[i], published, acks[i], now, world, Accepts(entry),
        if entry.Some? then entry.value.eventId else None, Reason(claimed, i, size, send, world.sanitize));
  }

  lemma NothingAccepted()
    ensures !Accepts(None)
  {
  }

  // What an answer is when some result for its event is a success or a failure.
  lemma {:induction false} AnswerIs(config: Config, ticket: Ticket, results: seq<PublishResult>, ack: Action,
                                    now: Instant, world: World, accepted: bool, reference: Option<string>,
                                    reason: string)
    requires Answers(config, ticket, results, ack, now, world)
    requires world.digest(ticket.event, ticket.attempt) <= Retry.DIGEST_MAXIMUM
    requires exists r :: r in results && r.eventId == ticket.event && r.success == accepted &&
                         (if accepted then r.reference == reference else r.error == Some(reason))
    ensures if accepted then ack == Publish(ticket, reference)
            else
              && ack.Fail? && ack.ticket == ticket && ack.error == world.sanitize(reason)
              && (ack.deadLetter <==> ticket.attempt >= config.maximumAttempts)
              && Retry.IsBackedOff(now, ack.nextAttempt, ticket.attempt, config.retryBaseSeconds,
                                   config.retryMaximumSeconds)
  {
    Retry.NextAttemptIsBackedOff(now, ticket.attempt, config.retryBaseSeconds, config.retryMaximumSeconds,
        world.digest(ticket.event, ticket.attempt));
    hide ByEventId, Retry.NextAttemptAt, Retry.DelaySeconds, Retry.IsBackedOff;
  }

  /** So a round, with others that keep the same maximum, stays inside the retry budget. */
  lemma RoundIsGoverned(config: Config, s: Tables, claimed: seq<Ticket>, published: seq<PublishResult>,
                        acks: seq<Action>, world: World)
    requires |acks| == |claimed| && AllAnswered(config, s, claimed, published, acks, world)
    requires forall n: nat :: n < |acks| ==> OutboxSafety.Governed(world.others(n), config.maximumAttempts)
    ensures OutboxSafety.Governed(ClaimActions(claimed, config.leaseSeconds) + Interleaved(world.others, acks),
            config.maximumAttempts)
  {
    hide Run, Step, Answers, Interleaved, TimeOf;
    forall i | 0 <= i < |acks|
      ensures OutboxSafety.Governed([acks[i]], config.maximumAttempts)
    {
      AnswerIsGoverned(config, claimed[i], published, acks[i], TimeOf(s, world.others, acks[..i]), world);
    }
    InterleavedIsGoverned(config.maximumAttempts, acks, world.others);
  }

  lemma AnswerIsGoverned(config: Config, ticket: Ticket, results: seq<PublishResult>, ack: Action, now: Instant,
                         world: World)
    requires Answers(config, ticket, results, ack, now, world)
    ensures OutboxSafety.Governed([ack], config.maximumAttempts)
  {
    hide Own, ByEventId;
  }

  lemma {:induction false} InterleavedIsGoverned(maximum: nat, acks: seq<Action>, others: nat -> seq<Action>)
    requires forall i :: 0 <= i < |acks| ==> OutboxSafety.Governed([acks[i]], maximum)
    requires forall n: nat :: n < |acks| ==> OutboxSafety.Governed(others(n), maximum)
    ensures OutboxSafety.Governed(Interleaved(others, acks), maximum)
  {
    if acks != [] {
      var n := |acks| - 1;
      forall i | 0 <= i < n
        ensures OutboxSafety.Governed([acks[..n][i]], maximum)
      {
        assert acks[..n][i] == acks[i];
      }
      InterleavedIsGoverned(maximum, acks[..n], others);
      assert OutboxSafety.Governed(others(n), maximum);
      assert OutboxSafety.Governed([acks[n]], maximum) && [acks[n]][0] == acks[n];
    }
  }
}
