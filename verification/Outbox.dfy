/**
  The transactional outbox: rows of `outbox_events`, the append-only delivery evidence and
  the three statements that move a row.  Every statement is one atomic step.  A step whose
  guard does not hold leaves the tables alone, as an UPDATE that matches no row does.

  Any ticket may be presented at any time and any number of times, so a run covers crashed
  workers, lost replies, workers that outlive their lease and workers that share a name.
*/
module Outbox {
  import opened Wrappers

  type EventId = string
  type WorkerId = string
  type Instant = int // microseconds

  const SECOND: int := 1_000_000

  datatype EventRow = EventRow(
    attempts: nat,
    nextAttemptAt: Instant,
    leasedAt: Option<Instant>,
    leaseOwner: Option<WorkerId>,
    publishedAt: Option<Instant>,
    publishedReference: Option<string>,
    deadLetteredAt: Option<Instant>,
    lastError: Option<string>)

  datatype Outcome = Delivered | Retry | DeadLetter

  datatype Evidence = Evidence(event: EventId, attempt: nat, outcome: Outcome, worker: WorkerId, recordedAt: Instant)

  // What a claim returns and an acknowledgement presents: the fencing token is `attempt`.
  datatype Ticket = Ticket(event: EventId, attempt: nat, owner: WorkerId)

  // History of the claims; no statement reads it.
  datatype ClaimRecord = ClaimRecord(event: EventId, attempt: nat, at: Instant, leaseSeconds: nat)

  datatype Tables = Tables(
    events: map<EventId, EventRow>,
    evidence: seq<Evidence>,
    enqueued: seq<EventId>, // calls of app.enqueue_event_consumers
    claims: seq<ClaimRecord>,
    clock: Instant)

  datatype Action =
    | Tick(to: Instant)
    | Produce(event: EventId)
    | Claim(owner: WorkerId, event: EventId, leaseSeconds: nat)
    | Publish(ticket: Ticket, reference: Option<string>)
    | Fail(ticket: Ticket, error: string, nextAttempt: Instant, deadLetter: bool)

  const FRESH: EventRow := EventRow(0, 0, None, None, None, None, None, None)

  function Empty(clock: Instant): Tables {
    Tables(map[], [], [], [], clock)
  }

  function Truncate(text: string, limit: nat): string {
    if |text| <= limit then text else text[..limit]
  }

  predicate Claimable(row: EventRow, now: Instant, leaseSeconds: nat) {
    && row.publishedAt.None?
    && row.deadLetteredAt.None?
    && row.nextAttemptAt <= now
    && (row.leasedAt.None? || row.leasedAt.value < now - leaseSeconds * SECOND)
  }

  // The WHERE clause of the failure update; the publish update also tests dead_lettered_at.
  predicate HoldsLease(row: EventRow, ticket: Ticket) {
    row.leaseOwner == Some(ticket.owner) && row.attempts == ticket.attempt && row.publishedAt.None?
  }

  predicate CanPublish(s: Tables, ticket: Ticket) {
    && ticket.event in s.events
    && HoldsLease(s.events[ticket.event], ticket)
    && s.events[ticket.event].deadLetteredAt.None?
  }

  predicate CanFail(s: Tables, ticket: Ticket) {
    ticket.event in s.events && HoldsLease(s.events[ticket.event], ticket)
  }

  function Claimed(row: EventRow, owner: WorkerId, now: Instant): EventRow {
    row.(leasedAt := Some(now), leaseOwner := Some(owner), attempts := row.attempts + 1)
  }

  function Published(row: EventRow, reference: Option<string>, now: Instant): EventRow {
    row.(publishedAt := Some(now), publishedReference := reference,
         leasedAt := None, leaseOwner := None, lastError := None)
  }

  function Failed(row: EventRow, error: string, nextAttempt: Instant, deadLetter: bool, now: Instant): EventRow {
    row.(lastError := Some(Truncate(error, 2000)), nextAttemptAt := nextAttempt,
         deadLetteredAt := if deadLetter then Some(now) else None,
         leasedAt := None, leaseOwner := None)
  }

  function Step(s: Tables, action: Action): Tables {
    match action
    case Tick(to) =>
      s.(clock := if to > s.clock then to else s.clock)
    case Produce(event) =>
      if event in s.events then s
      else s.(events := s.events[event := FRESH.(nextAttemptAt := s.clock)])
    case Claim(owner, event, leaseSeconds) =>
      if event in s.events && Claimable(s.events[event], s.clock, leaseSeconds) then
        var row := Claimed(s.events[event], owner, s.clock);
        s.(events := s.events[event := row],
           claims := s.claims + [ClaimRecord(event, row.attempts, s.clock, leaseSeconds)])
      else s
    case Publish(ticket, reference) =>
      if CanPublish(s, ticket) then
        s.(events := s.events[ticket.event := Published(s.events[ticket.event], reference, s.clock)],
           evidence := s.evidence + [Evidence(ticket.event, ticket.attempt, Delivered, ticket.owner, s.clock)],
           enqueued := s.enqueued + [ticket.event])
      else s
    case Fail(ticket, error, nextAttempt, deadLetter) =>
      if CanFail(s, ticket) then
        var row := Failed(s.events[ticket.event], error, nextAttempt, deadLetter, s.clock);
        var outcome := if deadLetter then DeadLetter else Retry;
        s.(events := s.events[ticket.event := row],
           evidence := s.evidence + [Evidence(ticket.event, ticket.attempt, outcome, ticket.owner, s.clock)])
      else s
  }

  function Run(s: Tables, actions: seq<Action>): Tables {
    if actions == [] then s else Step(Run(s, actions[..|actions| - 1]), actions[|actions| - 1])
  }

  lemma RunStep(s: Tables, actions: seq<Action>, action: Action)
    ensures Run(s, actions + [action]) == Step(Run(s, actions), action)
  {
    assert (actions + [action])[..|actions|] == actions;
  }

  lemma {:induction false} RunAppend(s: Tables, before: seq<Action>, after: seq<Action>)
    ensures Run(s, before + after) == Run(Run(s, before), after)
  {
    if after == [] {
      assert before + after == before;
    } else {
      var last := |after| - 1;
      assert before + after == (before + after[..last]) + [after[last]];
      RunAppend(s, before, after[..last]);
      RunStep(s, before + after[..last], after[last]);
    }
  }

  // ------------------------------------------------------------------ one event's view

  function Trail(log: seq<Evidence>, event: EventId): seq<Evidence> {
    if log == [] then []
    else
      var last := log[|log| - 1];
      Trail(log[..|log| - 1], event) + if last.event == event then [last] else []
  }

  function ClaimsOf(log: seq<ClaimRecord>, event: EventId): seq<ClaimRecord> {
    if log == [] then []
    else
      var last := log[|log| - 1];
      ClaimsOf(log[..|log| - 1], event) + if last.event == event then [last] else []
  }

  function Count(calls: seq<EventId>, event: EventId): nat {
    if calls == [] then 0
    else Count(calls[..|calls| - 1], event) + if calls[|calls| - 1] == event then 1 else 0
  }

  datatype View = View(row: Option<EventRow>, trail: seq<Evidence>, claims: seq<ClaimRecord>, enqueued: nat)

  function ViewOf(s: Tables, event: EventId): View {
    View(if event in s.events then Some(s.events[event]) else None,
         Trail(s.evidence, event), ClaimsOf(s.claims, event), Count(s.enqueued, event))
  }

  predicate SettledBy(trail: seq<Evidence>, attempt: nat, at: Instant) {
    exists i :: 0 <= i < |trail| && trail[i].attempt == attempt && trail[i].recordedAt <= at
  }

  // Why attempt k+1 could be claimed: k was settled, or its lease had run out.
  predicate MayFollow(previous: ClaimRecord, next: ClaimRecord, trail: seq<Evidence>) {
    && next.attempt == previous.attempt + 1
    && previous.at <= next.at
    && (SettledBy(trail, previous.attempt, next.at) || previous.at + next.leaseSeconds * SECOND < next.at)
  }

  predicate Ends(trail: seq<Evidence>, outcome: Outcome) {
    trail != [] && trail[|trail| - 1].outcome == outcome
  }

  // The trail is a strictly rising list of retries with at most one final verdict at its end.
  predicate TrailInOrder(trail: seq<Evidence>, attempts: nat, clock: Instant) {
    && (forall i :: 0 <= i < |trail| ==> 1 <= trail[i].attempt <= attempts && trail[i].recordedAt <= clock)
    && (forall i, j :: 0 <= i < j < |trail| ==> trail[i].attempt < trail[j].attempt && trail[i].outcome == Retry)
  }

  predicate ClaimsInOrder(claims: seq<ClaimRecord>, trail: seq<Evidence>, clock: Instant) {
    && (forall i :: 0 <= i < |claims| ==> claims[i].attempt == i + 1 && claims[i].at <= clock)
    && (forall i :: 0 < i < |claims| ==> MayFollow(claims[i - 1], claims[i], trail))
  }

  predicate Consistent(v: View, clock: Instant) {
    match v.row
    case None => v.trail == [] && v.claims == [] && v.enqueued == 0
    case Some(row) =>
      && |v.claims| == row.attempts
      && ClaimsInOrder(v.claims, v.trail, clock)
      && TrailInOrder(v.trail, row.attempts, clock)
      && (row.publishedAt.Some? <==> Ends(v.trail, Delivered))
      && (row.deadLetteredAt.Some? <==> Ends(v.trail, DeadLetter))
      && v.enqueued == (if row.publishedAt.Some? then 1 else 0)
      && (row.leaseOwner.Some? <==> row.leasedAt.Some?)
      && (if row.leaseOwner.Some? then
            && row.attempts > 0
            && row.leasedAt == Some(v.claims[row.attempts - 1].at)
            && (v.trail != [] ==> Ends(v.trail, Retry) && v.trail[|v.trail| - 1].attempt < row.attempts)
          else
            row.attempts > 0 ==> v.trail != [] && v.trail[|v.trail| - 1].attempt == row.attempts)
  }

  ghost predicate Inv(s: Tables) {
    forall event: EventId :: Consistent(ViewOf(s, event), s.clock)
  }

  // ------------------------------------------------------------------ every step keeps it

  lemma Projections(s: Tables, e: Evidence, c: ClaimRecord, call: EventId, event: EventId)
    ensures Trail(s.evidence + [e], event) == Trail(s.evidence, event) + if e.event == event then [e] else []
    ensures ClaimsOf(s.claims + [c], event) == ClaimsOf(s.claims, event) + if c.event == event then [c] else []
    ensures Count(s.enqueued + [call], event) == Count(s.enqueued, event) + if call == event then 1 else 0
  {
    assert (s.evidence + [e])[..|s.evidence|] == s.evidence;
    assert (s.claims + [c])[..|s.claims|] == s.claims;
    assert (s.enqueued + [call])[..|s.enqueued|] == s.enqueued;
  }

  lemma SettledStays(trail: seq<Evidence>, e: Evidence, attempt: nat, at: Instant)
    requires SettledBy(trail, attempt, at)
    ensures SettledBy(trail + [e], attempt, at)
  {
    var i :| 0 <= i < |trail| && trail[i].attempt == attempt && trail[i].recordedAt <= at;
    assert (trail + [e])[i] == trail[i];
  }

  lemma TimePasses(v: View, clock: Instant, later: Instant)
    requires Consistent(v, clock) && clock <= later
    ensures Consistent(v, later)
  {
  }

  lemma ClaimKeepsConsistent(v: View, owner: WorkerId, clock: Instant, event: EventId, leaseSeconds: nat)
    requires Consistent(v, clock) && v.row.Some? && Claimable(v.row.value, clock, leaseSeconds)
    ensures var row := Claimed(v.row.value, owner, clock);
            Consistent(v.(row := Some(row),
                          claims := v.claims + [ClaimRecord(event, row.attempts, clock, leaseSeconds)]), clock)
  {
    var row := v.row.value;
    var next := ClaimRecord(event, row.attempts + 1, clock, leaseSeconds);
    if row.attempts > 0 {
      var previous := v.claims[row.attempts - 1];
      if row.leaseOwner.None? {
        assert v.trail[|v.trail| - 1].attempt == previous.attempt;
        assert SettledBy(v.trail, previous.attempt, clock);
      }
      assert MayFollow(previous, next, v.trail);
    }
  }

  lemma SettleKeepsConsistent(v: View, row: EventRow, e: Evidence, clock: Instant)
    requires Consistent(v, clock) && v.row.Some? && v.row.value.leaseOwner.Some?
    requires e.attempt == v.row.value.attempts == row.attempts && e.recordedAt == clock
    requires row.leaseOwner.None? && row.leasedAt.None?
    requires row.publishedAt.Some? <==> e.outcome == Delivered
    requires row.deadLetteredAt.Some? <==> e.outcome == DeadLetter
    ensures Consistent(v.(row := Some(row), trail := v.trail + [e],
                          enqueued := v.enqueued + if e.outcome == Delivered then 1 else 0), clock)
  {
    forall i | 0 < i < |v.claims|
      ensures MayFollow(v.claims[i - 1], v.claims[i], v.trail + [e])
    {
      assert MayFollow(v.claims[i - 1], v.claims[i], v.trail);
      if SettledBy(v.trail, v.claims[i - 1].attempt, v.claims[i].at) {
        SettledStays(v.trail, e, v.claims[i - 1].attempt, v.claims[i].at);
      }
    }
  }

  lemma ClaimKeepsInv(s: Tables, owner: WorkerId, target: EventId, leaseSeconds: nat)
    requires Inv(s)
    ensures Inv(Step(s, Claim(owner, target, leaseSeconds)))
  {
    var s' := Step(s, Claim(owner, target, leaseSeconds));
    if target in s.events && Claimable(s.events[target], s.clock, leaseSeconds) {
      var record := ClaimRecord(target, s.events[target].attempts + 1, s.clock, leaseSeconds);
      forall event: EventId
        ensures Consistent(ViewOf(s', event), s'.clock)
      {
        var v := ViewOf(s, event);
        assert Consistent(v, s.clock);
        Projections(s, Evidence("", 0, Retry, "", 0), record, "", event);
        if event == target {
          ClaimKeepsConsistent(v, owner, s.clock, event, leaseSeconds);
        } else {
          assert ViewOf(s', event) == v;
        }
      }
    }
  }

  // Both acknowledgements write one row, one piece of evidence and, on success, one enqueue.
  lemma SettleKeepsInv(s: Tables, s': Tables, row: EventRow, e: Evidence)
    requires Inv(s)
    requires e.event in s.events && s.events[e.event].leaseOwner.Some?
    requires e.attempt == s.events[e.event].attempts == row.attempts && e.recordedAt == s.clock
    requires row.leaseOwner.None? && row.leasedAt.None?
    requires row.publishedAt.Some? <==> e.outcome == Delivered
    requires row.deadLetteredAt.Some? <==> e.outcome == DeadLetter
    requires s' == s.(events := s.events[e.event := row], evidence := s.evidence + [e],
                      enqueued := s.enqueued + if e.outcome == Delivered then [e.event] else [])
    ensures Inv(s')
  {
    hide Consistent, Trail, ClaimsOf, Count;
    forall event: EventId
      ensures Consistent(ViewOf(s', event), s'.clock)
    {
      var v := ViewOf(s, event);
      assert Consistent(v, s.clock);
      Projections(s, e, ClaimRecord("", 0, 0, 0), e.event, event);
      assert s.enqueued + [] == s.enqueued;
      if event == e.event {
        SettleKeepsConsistent(v, row, e, s.clock);
      } else {
        assert ViewOf(s', event) == v;
      }
    }
  }

  lemma PublishKeepsInv(s: Tables, ticket: Ticket, reference: Option<string>)
    requires Inv(s)
    ensures Inv(Step(s, Publish(ticket, reference)))
  {
    if CanPublish(s, ticket) {
      var e := Evidence(ticket.event, ticket.attempt, Delivered, ticket.owner, s.clock);
      SettleKeepsInv(s, Step(s, Publish(ticket, reference)),
                     Published(s.events[ticket.event], reference, s.clock), e);
    }
  }

  lemma FailKeepsInv(s: Tables, ticket: Ticket, error: string, nextAttempt: Instant, deadLetter: bool)
    requires Inv(s)
    ensures Inv(Step(s, Fail(ticket, error, nextAttempt, deadLetter)))
  {
    if CanFail(s, ticket) {
      var e := Evidence(ticket.event, ticket.attempt, if deadLetter then DeadLetter else Retry, ticket.owner, s.clock);
      assert s.enqueued + [] == s.enqueued;
      SettleKeepsInv(s, Step(s, Fail(ticket, error, nextAttempt, deadLetter)),
                     Failed(s.events[ticket.event], error, nextAttempt, deadLetter, s.clock), e);
    }
  }

  lemma TickKeepsInv(s: Tables, to: Instant)
    requires Inv(s)
    ensures Inv(Step(s, Tick(to)))
  {
    var s' := Step(s, Tick(to));
    forall event: EventId
      ensures Consistent(ViewOf(s', event), s'.clock)
    {
      assert ViewOf(s', event) == ViewOf(s, event);
      TimePasses(ViewOf(s, event), s.clock, s'.clock);
    }
  }

  lemma ProduceKeepsInv(s: Tables, target: EventId)
    requires Inv(s)
    ensures Inv(Step(s, Produce(target)))
  {
    hide Trail, ClaimsOf, Count, Consistent;
    var s' := Step(s, Produce(target));
    forall event: EventId
      ensures Consistent(ViewOf(s', event), s'.clock)
    {
      assert Consistent(ViewOf(s, event), s.clock);
      if event == target && target !in s.events {
        FreshIsConsistent(ViewOf(s, event), s.clock);
      } else {
        assert ViewOf(s', event) == ViewOf(s, event);
      }
    }
  }

  lemma FreshIsConsistent(v: View, clock: Instant)
    requires Consistent(v, clock) && v.row.None?
    ensures Consistent(v.(row := Some(FRESH.(nextAttemptAt := clock))), clock)
  {
  }

  lemma StepKeepsInv(s: Tables, action: Action)
    requires Inv(s)
    ensures Inv(Step(s, action))
  {
    match action {
      case Tick(to) => TickKeepsInv(s, to);
      case Produce(event) => ProduceKeepsInv(s, event);
      case Claim(owner, event, leaseSeconds) => ClaimKeepsInv(s, owner, event, leaseSeconds);
      case Publish(ticket, reference) => PublishKeepsInv(s, ticket, reference);
      case Fail(ticket, error, nextAttempt, deadLetter) => FailKeepsInv(s, ticket, error, nextAttempt, deadLetter);
    }
  }

  lemma {:induction false} RunKeepsInv(s: Tables, actions: seq<Action>)
    requires Inv(s)
    ensures Inv(Run(s, actions))
  {
    if actions != [] {
      RunKeepsInv(s, actions[..|actions| - 1]);
      StepKeepsInv(Run(s, actions[..|actions| - 1]), actions[|actions| - 1]);
    }
  }
}
