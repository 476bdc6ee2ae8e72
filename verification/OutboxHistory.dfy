/**
  What the tables of the outbox say about the past: every field of a row and every line of evidence
  goes back to the one step that wrote it.
*/
module OutboxHistory {
  import opened Wrappers
  import opened Outbox
  import opened OutboxSafety
  import opened OutboxRepository

  // The tables before the i-th step of the run.
  function Then(clock: Instant, actions: seq<Action>, i: nat): Tables
    requires i <= |actions|
  {
    Run(Empty(clock), actions[..i])
  }

  // At most 2000 characters, from the front, and all of them when there are no more.
  predicate Shortened(kept: string, text: string) {
    kept <= text && |kept| == if |text| < 2000 then |text| else 2000
  }

  // The i-th step claimed this attempt for this worker.
  predicate ClaimedAt(clock: Instant, actions: seq<Action>, i: nat, ticket: Ticket)
    requires i < |actions|
  {
    var s, event := Then(clock, actions, i), ticket.event;
    && actions[i].Claim? && actions[i].owner == ticket.owner && actions[i].event == event
    && event in s.events && s.events[event].attempts + 1 == ticket.attempt
    && event in Step(s, actions[i]).events && Step(s, actions[i]).events[event].attempts == ticket.attempt
  }

  predicate HasClaimed(clock: Instant, actions: seq<Action>, ticket: Ticket) {
    exists i :: 0 <= i < |actions| && ClaimedAt(clock, actions, i, ticket)
  }

  predicate LeasedAt(clock: Instant, actions: seq<Action>, i: nat, event: EventId, row: EventRow)
    requires i < |actions| && row.leaseOwner.Some?
  {
    && ClaimedAt(clock, actions, i, Ticket(event, row.attempts, row.leaseOwner.value))
    && row.leasedAt == Some(Then(clock, actions, i).clock)
  }

  predicate PublishedAt(clock: Instant, actions: seq<Action>, i: nat, event: EventId, row: EventRow)
    requires i < |actions|
  {
    && actions[i].Publish? && actions[i].ticket.event == event && actions[i].ticket.attempt == row.attempts
    && row.publishedReference == actions[i].reference && row.publishedAt == Some(Then(clock, actions, i).clock)
  }

  predicate FailedAt(clock: Instant, actions: seq<Action>, i: nat, event: EventId, row: EventRow)
    requires i < |actions| && row.lastError.Some?
  {
    && actions[i].Fail? && actions[i].ticket.event == event && Shortened(row.lastError.value, actions[i].error)
    && row.nextAttemptAt == actions[i].nextAttempt
    && row.deadLetteredAt == if actions[i].deadLetter then Some(Then(clock, actions, i).clock) else None
  }

  predicate ProducedAt(clock: Instant, actions: seq<Action>, i: nat, event: EventId, row: EventRow)
    requires i < |actions|
  {
    actions[i] == Produce(event) && row.nextAttemptAt == Then(clock, actions, i).clock
  }

  // The step that settled an attempt; the evidence has its outcome, its worker and its time.
  predicate SettledAt(clock: Instant, actions: seq<Action>, i: nat, e: Evidence)
    requires i < |actions|
  {
    && (actions[i].Publish? || actions[i].Fail?)
    && actions[i].ticket == Ticket(e.event, e.attempt, e.worker)
    && e.outcome == (if actions[i].Publish? then Delivered else if actions[i].deadLetter then DeadLetter else Retry)
    && e.recordedAt == Then(clock, actions, i).clock
  }

  // A published row has its reference and no error; another one has the error, the next attempt and
  // the verdict of its last failure; one that never failed waits since it was produced.
  predicate RowIsTold(clock: Instant, actions: seq<Action>, event: EventId, row: EventRow) {
    && (row.publishedAt.Some? ==>
          row.lastError.None? && row.deadLetteredAt.None? &&
          exists i :: 0 <= i < |actions| && PublishedAt(clock, actions, i, event, row))
    && (row.publishedAt.None? && row.lastError.Some? ==>
          row.publishedReference.None? &&
          exists i :: 0 <= i < |actions| && FailedAt(clock, actions, i, event, row))
    && (row.publishedAt.None? && row.lastError.None? ==>
          row.publishedReference.None? && row.deadLetteredAt.None? &&
          exists i :: 0 <= i < |actions| && ProducedAt(clock, actions, i, event, row))
    && (row.leaseOwner.Some? ==>
          row.publishedAt.None? && row.deadLetteredAt.None? &&
          exists i :: 0 <= i < |actions| && LeasedAt(clock, actions, i, event, row))
  }

  predicate EvidenceIsTold(clock: Instant, actions: seq<Action>, e: Evidence) {
    && HasClaimed(clock, actions, Ticket(e.event, e.attempt, e.worker))
    && exists i :: 0 <= i < |actions| && SettledAt(clock, actions, i, e)
  }

  predicate AllEvidenceIsTold(clock: Instant, actions: seq<Action>, log: seq<Evidence>) {
    forall k :: 0 <= k < |log| ==> EvidenceIsTold(clock, actions, log[k])
  }

  // ------------------------------------------------------------------ one more step

  lemma ThenStays(clock: Instant, actions: seq<Action>, a: Action, i: nat)
    requires i <= |actions|
    ensures Then(clock, actions + [a], i) == Then(clock, actions, i)
    ensures i < |actions| ==> (actions + [a])[i] == actions[i]
  {
    assert (actions + [a])[..i] == actions[..i];
  }

  lemma ThenNow(clock: Instant, actions: seq<Action>, a: Action)
    ensures Then(clock, actions + [a], |actions|) == Run(Empty(clock), actions)
    ensures (actions + [a])[|actions|] == a
  {
    assert (actions + [a])[..|actions|] == actions;
  }

  lemma ClaimStays(clock: Instant, actions: seq<Action>, a: Action, ticket: Ticket)
    requires HasClaimed(clock, actions, ticket)
    ensures HasClaimed(clock, actions + [a], ticket)
  {
    hide Then;
    var i :| 0 <= i < |actions| && ClaimedAt(clock, actions, i, ticket);
    ThenStays(clock, actions, a, i);
    assert ClaimedAt(clock, actions + [a], i, ticket);
  }

  lemma RowStays(clock: Instant, actions: seq<Action>, a: Action, event: EventId, row: EventRow)
    requires RowIsTold(clock, actions, event, row)
    ensures RowIsTold(clock, actions + [a], event, row)
  {
    hide Then, Step;
    var more := actions + [a];
    forall i | 0 <= i < |actions|
      ensures PublishedAt(clock, actions, i, event, row) ==> PublishedAt(clock, more, i, event, row)
      ensures row.lastError.Some? && FailedAt(clock, actions, i, event, row) ==> FailedAt(clock, more, i, event, row)
      ensures ProducedAt(clock, actions, i, event, row) ==> ProducedAt(clock, more, i, event, row)
      ensures row.leaseOwner.Some? && LeasedAt(clock, actions, i, event, row) ==> LeasedAt(clock, more, i, event, row)
    {
      ThenStays(clock, actions, a, i);
    }
  }

  lemma EvidenceStays(clock: Instant, actions: seq<Action>, a: Action, e: Evidence)
    requires EvidenceIsTold(clock, actions, e)
    ensures EvidenceIsTold(clock, actions + [a], e)
  {
    hide Then, HasClaimed;
    ClaimStays(clock, actions, a, Ticket(e.event, e.attempt, e.worker));
    var i :| 0 <= i < |actions| && SettledAt(clock, actions, i, e);
    ThenStays(clock, actions, a, i);
    assert SettledAt(clock, actions + [a], i, e);
  }

  // The row that a step leaves, from the row that it found.
  lemma RowNext(clock: Instant, actions: seq<Action>, a: Action, event: EventId)
    requires var s := Run(Empty(clock), actions);
             event in s.events ==> RowIsTold(clock, actions, event, s.events[event])
    requires event in Step(Run(Empty(clock), actions), a).events
    ensures RowIsTold(clock, actions + [a], event, Step(Run(Empty(clock), actions), a).events[event])
  {
    hide Then, Run, Empty;
    var s, i, more := Run(Empty(clock), actions), |actions|, actions + [a];
    var row := Step(s, a).events[event];
    ThenNow(clock, actions, a);
    assert Then(clock, more, i) == s && more[i] == a && i < |more|;
    if event in s.events {
      RowStays(clock, actions, a, event, s.events[event]);
    }
    if event in s.events && row == s.events[event] {
    } else if a.Produce? {
      assert ProducedAt(clock, more, i, event, row);
    } else if a.Publish? {
      assert PublishedAt(clock, more, i, event, row);
    } else if a.Fail? {
      assert FailedAt(clock, more, i, event, row);
    } else {
      ClaimNext(clock, actions, a, event);
    }
  }

  lemma ClaimNext(clock: Instant, actions: seq<Action>, a: Action, event: EventId)
    requires var s := Run(Empty(clock), actions);
             && event in s.events && RowIsTold(clock, actions + [a], event, s.events[event])
             && a.Claim? && Step(s, a).events[event] != s.events[event]
    ensures RowIsTold(clock, actions + [a], event, Step(Run(Empty(clock), actions), a).events[event])
  {
    hide Then, Run, Empty;
    var s, n, more := Run(Empty(clock), actions), |actions|, actions + [a];
    var row, next := s.events[event], Step(s, a).events[event];
    ThenNow(clock, actions, a);
    assert Then(clock, more, n) == s && more[n] == a && n < |more|;
    assert LeasedAt(clock, more, n, event, next);
    assert next == row.(leasedAt := next.leasedAt, leaseOwner := next.leaseOwner, attempts := next.attempts);
    forall i | 0 <= i < |more|
      ensures row.lastError.Some? && FailedAt(clock, more, i, event, row) ==> FailedAt(clock, more, i, event, next)
      ensures ProducedAt(clock, more, i, event, row) ==> ProducedAt(clock, more, i, event, next)
    {
    }
  }

  lemma EvidenceNext(clock: Instant, actions: seq<Action>, a: Action)
    requires var s := Run(Empty(clock), actions);
             && AllEvidenceIsTold(clock, actions, s.evidence)
             && forall event :: event in s.events ==> RowIsTold(clock, actions, event, s.events[event])
    ensures AllEvidenceIsTold(clock, actions + [a], Step(Run(Empty(clock), actions), a).evidence)
  {
    hide Then, Run, Empty, HasClaimed;
    var s, n, more := Run(Empty(clock), actions), |actions|, actions + [a];
    forall k | 0 <= k < |s.evidence|
      ensures EvidenceIsTold(clock, more, s.evidence[k])
    {
      EvidenceStays(clock, actions, a, s.evidence[k]);
    }
    if Step(s, a).evidence != s.evidence {
      var e := Step(s, a).evidence[|s.evidence|];
      assert Step(s, a).evidence == s.evidence + [e];
      ThenNow(clock, actions, a);
      assert more[n] == a && SettledAt(clock, more, n, e);
      LeaseIsClaimed(clock, actions, e.event, s.events[e.event]);
      ClaimStays(clock, actions, a, a.ticket);
    }
  }

  lemma LeaseIsClaimed(clock: Instant, actions: seq<Action>, event: EventId, row: EventRow)
    requires RowIsTold(clock, actions, event, row) && row.leaseOwner.Some?
    ensures HasClaimed(clock, actions, Ticket(event, row.attempts, row.leaseOwner.value))
  {
    hide Then, ClaimedAt;
    var i :| 0 <= i < |actions| && LeasedAt(clock, actions, i, event, row);
    assert ClaimedAt(clock, actions, i, Ticket(event, row.attempts, row.leaseOwner.value));
  }

  /** On every run, what a row says is what the step that wrote it said: a publication its
      reference, a failure its error, its time and its verdict, a claim its worker.  Evidence names
      the worker that had claimed that very attempt. */
  lemma {:induction false} TablesTellThePast(clock: Instant, actions: seq<Action>)
    ensures var s := Run(Empty(clock), actions);
            && AllEvidenceIsTold(clock, actions, s.evidence)
            && forall event :: event in s.events ==> RowIsTold(clock, actions, event, s.events[event])
  {
    if actions != [] {
      var before, a := actions[..|actions| - 1], actions[|actions| - 1];
      TablesTellThePast(clock, before);
      hide RowIsTold, AllEvidenceIsTold, Step, Empty;
      assert actions == before + [a];
      RunStep(Empty(clock), before, a);
      EvidenceNext(clock, before, a);
      forall event | event in Step(Run(Empty(clock), before), a).events
        ensures RowIsTold(clock, actions, event, Step(Run(Empty(clock), before), a).events[event])
      {
        RowNext(clock, before, a, event);
      }
    }
  }

  // ------------------------------------------------------------------ which acknowledgements count

  // Nobody has settled this attempt.
  predicate Unsettled(log: seq<Evidence>, event: EventId, attempt: nat) {
    forall k :: 0 <= k < |log| ==> !(log[k].event == event && log[k].attempt == attempt)
  }

  // A claim that is still the last one and unsettled holds the row.
  predicate Holds(s: Tables, ticket: Ticket) {
    ticket.event in s.events &&
    (s.events[ticket.event].attempts == ticket.attempt && Unsettled(s.evidence, ticket.event, ticket.attempt) ==>
       s.events[ticket.event].leaseOwner == Some(ticket.owner))
  }

  lemma HoldsOn(s: Tables, a: Action, ticket: Ticket)
    requires Holds(s, ticket) && s.events[ticket.event].attempts >= ticket.attempt
    ensures Holds(Step(s, a), ticket) && Step(s, a).events[ticket.event].attempts >= ticket.attempt
  {
    var s' := Step(s, a);
    var n := |s.evidence|;
    if Unsettled(s'.evidence, ticket.event, ticket.attempt) {
      assert Unsettled(s.evidence, ticket.event, ticket.attempt) by {
        forall k | 0 <= k < n
          ensures s.evidence[k] == s'.evidence[k]
        {
        }
      }
      if (a.Publish? || a.Fail?) && s' != s {
        assert s'.evidence[n].event == a.ticket.event && s'.evidence[n].attempt == a.ticket.attempt;
      }
    }
  }

  lemma {:induction false} ClaimHolds(clock: Instant, actions: seq<Action>, ticket: Ticket)
    requires HasClaimed(clock, actions, ticket)
    ensures var s := Run(Empty(clock), actions); Holds(s, ticket) && s.events[ticket.event].attempts >= ticket.attempt
  {
    var before, a := actions[..|actions| - 1], actions[|actions| - 1];
    assert actions == before + [a];
    RunStep(Empty(clock), before, a);
    ThenNow(clock, before, a);
    var i :| 0 <= i < |actions| && ClaimedAt(clock, actions, i, ticket);
    if i < |before| {
      ThenStays(clock, before, a, i);
      assert ClaimedAt(clock, before, i, ticket);
      ClaimHolds(clock, before, ticket);
      HoldsOn(Run(Empty(clock), before), a, ticket);
    } else {
      hide Run, Then, Empty, Unsettled;
    }
  }

  /** An acknowledgement changes the tables if and only if its worker claimed that very attempt,
      nobody has claimed the event since, and nobody has settled the attempt; whether it reports
      success or failure makes no difference. */
  lemma AcknowledgementCountsExactlyWhen(clock: Instant, actions: seq<Action>, ack: Action)
    requires ack.Publish? || ack.Fail?
    ensures var s, ticket := Run(Empty(clock), actions), ack.ticket;
            Step(s, ack) != s <==>
            && HasClaimed(clock, actions, ticket) && Unsettled(s.evidence, ticket.event, ticket.attempt)
            && ticket.event in s.events && s.events[ticket.event].attempts == ticket.attempt
  {
    var s, ticket := Run(Empty(clock), actions), ack.ticket;
    TablesTellThePast(clock, actions);
    ReachableInv(clock, actions);
    hide Run, Empty, HasClaimed, RowIsTold, Consistent, Inv;
    if HasClaimed(clock, actions, ticket) {
      ClaimHolds(clock, actions, ticket);
    }
    if ticket.event in s.events && s.events[ticket.event].leaseOwner.Some? {
      LeaseIsLive(clock, actions, s, ticket.event);
    }
    assert |(s.evidence + [Evidence(ticket.event, ticket.attempt, Delivered, ticket.owner, s.clock)])| != |s.evidence|;
  }

  // A lease belongs to the last claim, which nobody has settled, of an event that is not final.
  lemma LeaseIsLive(clock: Instant, actions: seq<Action>, s: Tables, event: EventId)
    requires s == Run(Empty(clock), actions) && event in s.events && s.events[event].leaseOwner.Some?
    requires Inv(s) && RowIsTold(clock, actions, event, s.events[event])
    ensures var row := s.events[event];
            && row.publishedAt.None? && row.deadLetteredAt.None? && Unsettled(s.evidence, event, row.attempts)
            && HasClaimed(clock, actions, Ticket(event, row.attempts, row.leaseOwner.value))
  {
    hide Run, Empty, HasClaimed, Then;
    LeaseIsClaimed(clock, actions, event, s.events[event]);
    assert Consistent(ViewOf(s, event), s.clock);
    TrailHasAll(s.evidence, event);
    hide Trail, ClaimsInOrder;
    var row, trail := s.events[event], Trail(s.evidence, event);
    forall k | 0 <= k < |s.evidence| && s.evidence[k].event == event
      ensures s.evidence[k].attempt < row.attempts
    {
      var i :| 0 <= i < |trail| && trail[i] == s.evidence[k];
      assert i < |trail| - 1 ==> trail[i].attempt < trail[|trail| - 1].attempt;
    }
  }

  lemma {:induction false} TrailHasAll(log: seq<Evidence>, event: EventId)
    ensures forall k :: 0 <= k < |log| && log[k].event == event ==> log[k] in Trail(log, event)
  {
    if log != [] {
      TrailHasAll(log[..|log| - 1], event);
    }
  }

  // ------------------------------------------------------------------ a claim misses nothing

  // Neither published nor dead, and the time from which it may be claimed has come.
  predicate Available(s: Tables, event: EventId, leaseSeconds: nat) {
    event in s.events && !Final(s, event) && s.clock >= ClaimableFrom(s.events[event], leaseSeconds)
  }

  function AvailableOnes(s: Tables, visible: seq<EventId>, leaseSeconds: nat): seq<EventId> {
    if visible == [] then []
    else
      var n := |visible| - 1;
      AvailableOnes(s, visible[..n], leaseSeconds) +
      if Available(s, visible[n], leaseSeconds) then [visible[n]] else []
  }

  lemma {:induction false} AvailableFromFront(s: Tables, visible: seq<EventId>, leaseSeconds: nat)
    requires visible != []
    ensures AvailableOnes(s, visible, leaseSeconds) ==
            (if Available(s, visible[0], leaseSeconds) then [visible[0]] else []) +
            AvailableOnes(s, visible[1..], leaseSeconds)
  {
    hide Available;
    var n := |visible| - 1;
    if n > 0 {
      AvailableFromFront(s, visible[..n], leaseSeconds);
      assert visible[..n][1..] == visible[1..][..n - 1];
    } else {
      assert visible[..0] == [] && visible[1..] == [];
    }
  }

  /** What a claim takes are the available rows among the first k that it visits, in their order;
      it stops only when the batch is full or nothing is left to visit. */
  lemma {:induction false} ClaimsMissNothing(s: Tables, visible: seq<EventId>, limit: nat, leaseSeconds: nat)
    returns (k: nat)
    ensures k <= |visible|
    ensures var taken := Candidates(s, visible, limit, leaseSeconds);
            && taken == AvailableOnes(s, visible[..k], leaseSeconds)
            && |taken| <= limit && (k == |visible| || |taken| == limit)
  {
    k := 0;
    if visible != [] && limit > 0 {
      var first, rest := visible[0], visible[1..];
      assert Eligible(s, first, leaseSeconds) <==> Available(s, first, leaseSeconds);
      k := ClaimsMissNothing(s, rest, if Eligible(s, first, leaseSeconds) then limit - 1 else limit, leaseSeconds);
      k := k + 1;
      assert visible[..k][1..] == rest[..k - 1] && visible[..k][0] == first;
      hide Available, Eligible;
      AvailableFromFront(s, visible[..k], leaseSeconds);
    }
  }
}
