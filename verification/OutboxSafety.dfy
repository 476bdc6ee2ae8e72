// What every run of the outbox promises, whoever claims, crashes, replays or shares a name.
module OutboxSafety {
  import opened Wrappers
  import opened Outbox

  // Rows of the evidence table for one event with one outcome.
  function OutcomeRows(log: seq<Evidence>, event: EventId, outcome: Outcome): nat {
    if log == [] then 0
    else
      var last := log[|log| - 1];
      OutcomeRows(log[..|log| - 1], event, outcome) +
      if last.event == event && last.outcome == outcome then 1 else 0
  }

  // Rows of the evidence table for one event and one attempt number.
  function AttemptRows(log: seq<Evidence>, event: EventId, attempt: nat): nat {
    if log == [] then 0
    else
      var last := log[|log| - 1];
      AttemptRows(log[..|log| - 1], event, attempt) +
      if last.event == event && last.attempt == attempt then 1 else 0
  }

  lemma RowsAppend(log: seq<Evidence>, e: Evidence, event: EventId, outcome: Outcome, attempt: nat)
    ensures OutcomeRows(log + [e], event, outcome) ==
            OutcomeRows(log, event, outcome) + if e.event == event && e.outcome == outcome then 1 else 0
    ensures AttemptRows(log + [e], event, attempt) ==
            AttemptRows(log, event, attempt) + if e.event == event && e.attempt == attempt then 1 else 0
  {
    assert (log + [e])[..|log|] == log;
  }

  lemma TrailAppend(log: seq<Evidence>, e: Evidence, event: EventId)
    ensures Trail(log + [e], event) == if e.event == event then Trail(log, event) + [e] else Trail(log, event)
  {
    assert (log + [e])[..|log|] == log;
  }

  lemma {:induction false} RowsAreInTheTrail(log: seq<Evidence>, event: EventId, outcome: Outcome, attempt: nat)
    ensures OutcomeRows(log, event, outcome) == OutcomeRows(Trail(log, event), event, outcome)
    ensures AttemptRows(log, event, attempt) == AttemptRows(Trail(log, event), event, attempt)
  {
    if log != [] {
      var rest, last := log[..|log| - 1], log[|log| - 1];
      RowsAreInTheTrail(rest, event, outcome, attempt);
      assert log == rest + [last];
      TrailAppend(rest, last, event);
      RowsAppend(rest, last, event, outcome, attempt);
      RowsAppend(Trail(rest, event), last, event, outcome, attempt);
    }
  }

  lemma {:induction false} TrailIsInTheLog(log: seq<Evidence>, event: EventId)
    ensures forall i :: 0 <= i < |Trail(log, event)| ==>
            Trail(log, event)[i] in log && Trail(log, event)[i].event == event
  {
    if log != [] {
      TrailIsInTheLog(log[..|log| - 1], event);
    }
  }

  lemma PrefixInOrder(trail: seq<Evidence>, n: nat, attempts: nat, clock: Instant)
    requires n <= |trail| && TrailInOrder(trail, attempts, clock)
    ensures TrailInOrder(trail[..n], attempts, clock)
  {
    var shorter := trail[..n];
    forall i, j | 0 <= i < j < |shorter|
      ensures shorter[i].attempt < shorter[j].attempt && shorter[i].outcome == Retry
    {
      assert shorter[i] == trail[i] && shorter[j] == trail[j];
    }
  }

  lemma {:induction false} RowsOfTrail(trail: seq<Evidence>, event: EventId, outcome: Outcome, attempts: nat,
                                       clock: Instant)
    requires TrailInOrder(trail, attempts, clock)
    requires forall i :: 0 <= i < |trail| ==> trail[i].event == event
    ensures OutcomeRows(trail, event, outcome) ==
            if trail == [] then 0
            else (if outcome == Retry then |trail| - 1 else 0) + if Ends(trail, outcome) then 1 else 0
  {
    if |trail| > 1 {
      var shorter := trail[..|trail| - 1];
      PrefixInOrder(trail, |trail| - 1, attempts, clock);
      RowsOfTrail(shorter, event, outcome, attempts, clock);
    }
  }

  lemma {:induction false} OneRowPerAttempt(trail: seq<Evidence>, event: EventId, attempt: nat, attempts: nat,
                                            clock: Instant)
    requires TrailInOrder(trail, attempts, clock)
    ensures AttemptRows(trail, event, attempt) <= 1
    ensures (forall i :: 0 <= i < |trail| ==> trail[i].attempt != attempt) ==> AttemptRows(trail, event, attempt) == 0
  {
    if trail != [] {
      var shorter := trail[..|trail| - 1];
      PrefixInOrder(trail, |trail| - 1, attempts, clock);
      OneRowPerAttempt(shorter, event, attempt, attempts, clock);
      assert forall i :: 0 <= i < |shorter| ==>
          shorter[i] == trail[i] && shorter[i].attempt < trail[|trail| - 1].attempt;
    }
  }

  lemma {:induction false} TrailMembers(log: seq<Evidence>, i: nat)
    requires i < |log|
    ensures exists k :: 0 <= k < |Trail(log, log[i].event)| && Trail(log, log[i].event)[k] == log[i]
  {
    var rest := log[..|log| - 1];
    var trail := Trail(log, log[i].event);
    if i == |log| - 1 {
      assert trail[|trail| - 1] == log[i];
    } else {
      TrailMembers(rest, i);
      var k :| 0 <= k < |Trail(rest, log[i].event)| && Trail(rest, log[i].event)[k] == log[i];
      assert trail[k] == log[i];
    }
  }

  lemma EmptyIsConsistent(clock: Instant)
    ensures Inv(Empty(clock))
  {
    forall event: EventId
      ensures Consistent(ViewOf(Empty(clock), event), clock)
    {
      assert ViewOf(Empty(clock), event) == View(None, [], [], 0);
    }
  }

  lemma ReachableInv(clock: Instant, actions: seq<Action>)
    ensures Inv(Run(Empty(clock), actions))
  {
    EmptyIsConsistent(clock);
    RunKeepsInv(Empty(clock), actions);
  }

  /** On every run an event is delivered and handed to its consumers at most once, and exactly
      when it is marked published; it is never both published and dead-lettered. */
  lemma DeliveredAtMostOnce(clock: Instant, actions: seq<Action>, event: EventId)
    ensures var s := Run(Empty(clock), actions);
            var published := event in s.events && s.events[event].publishedAt.Some?;
            var dead := event in s.events && s.events[event].deadLetteredAt.Some?;
            && OutcomeRows(s.evidence, event, Delivered) == (if published then 1 else 0)
            && Count(s.enqueued, event) == (if published then 1 else 0)
            && OutcomeRows(s.evidence, event, DeadLetter) == (if dead then 1 else 0)
            && !(published && dead)
  {
    ReachableInv(clock, actions);
    var s := Run(Empty(clock), actions);
    var v := ViewOf(s, event);
    assert Consistent(v, s.clock);
    RowsAreInTheTrail(s.evidence, event, Delivered, 0);
    RowsAreInTheTrail(s.evidence, event, DeadLetter, 0);
    TrailIsInTheLog(s.evidence, event);
    if v.row.Some? {
      RowsOfTrail(v.trail, event, Delivered, v.row.value.attempts, s.clock);
      RowsOfTrail(v.trail, event, DeadLetter, v.row.value.attempts, s.clock);
    }
  }

  lemma EvidenceIsUnique(clock: Instant, actions: seq<Action>, event: EventId, attempt: nat)
    ensures AttemptRows(Run(Empty(clock), actions).evidence, event, attempt) <= 1
  {
    ReachableInv(clock, actions);
    var s := Run(Empty(clock), actions);
    var v := ViewOf(s, event);
    assert Consistent(v, s.clock);
    RowsAreInTheTrail(s.evidence, event, Retry, attempt);
    if v.row.Some? {
      OneRowPerAttempt(v.trail, event, attempt, v.row.value.attempts, s.clock);
    }
  }

  predicate Final(s: Tables, event: EventId) {
    event in s.events && (s.events[event].publishedAt.Some? || s.events[event].deadLetteredAt.Some?)
  }

  lemma FinalHoldsNoLease(v: View, clock: Instant)
    requires Consistent(v, clock) && v.row.Some?
    requires v.row.value.publishedAt.Some? || v.row.value.deadLetteredAt.Some?
    ensures v.row.value.leaseOwner.None?
  {
  }

  // The row and the evidence of an event are the same in both tables.
  predicate Frozen(s: Tables, s': Tables, event: EventId) {
    && event in s.events && event in s'.events && s'.events[event] == s.events[event]
    && Trail(s'.evidence, event) == Trail(s.evidence, event)
  }

  lemma FinalPublish(s: Tables, ticket: Ticket, reference: Option<string>, event: EventId)
    requires event in s.events && s.events[event].leaseOwner.None?
    ensures Frozen(s, Step(s, Publish(ticket, reference)), event)
  {
    hide Trail;
    TrailAppend(s.evidence, Evidence(ticket.event, ticket.attempt, Delivered, ticket.owner, s.clock), event);
  }

  lemma FinalFailure(s: Tables, ticket: Ticket, error: string, nextAttempt: Instant, deadLetter: bool, event: EventId)
    requires event in s.events && s.events[event].leaseOwner.None?
    ensures Frozen(s, Step(s, Fail(ticket, error, nextAttempt, deadLetter)), event)
  {
    hide Trail;
    var outcome := if deadLetter then DeadLetter else Retry;
    TrailAppend(s.evidence, Evidence(ticket.event, ticket.attempt, outcome, ticket.owner, s.clock), event);
  }

  lemma FinalStep(s: Tables, action: Action, event: EventId)
    requires Inv(s) && Final(s, event)
    ensures Frozen(s, Step(s, action), event)
  {
    assert Consistent(ViewOf(s, event), s.clock);
    FinalHoldsNoLease(ViewOf(s, event), s.clock);
    hide Inv, Consistent, Trail, ViewOf;
    match action {
      case Publish(ticket, reference) => FinalPublish(s, ticket, reference, event);
      case Fail(ticket, error, nextAttempt, deadLetter) =>
        FinalFailure(s, ticket, error, nextAttempt, deadLetter, event);
      case _ =>
    }
  }

  lemma {:induction false} FinalRun(s: Tables, actions: seq<Action>, event: EventId)
    requires Inv(s) && Final(s, event)
    ensures var s' := Run(s, actions);
            event in s'.events && s'.events[event] == s.events[event] &&
            Trail(s'.evidence, event) == Trail(s.evidence, event)
  {
    if actions != [] {
      var shorter := actions[..|actions| - 1];
      FinalRun(s, shorter, event);
      RunKeepsInv(s, shorter);
      FinalStep(Run(s, shorter), actions[|actions| - 1], event);
    }
  }

  /** Published and dead-lettered are absorbing: the whole row and its evidence are frozen,
      although the failure update never tests dead_lettered_at and would write NULL to it. */
  lemma FinalEventsAreFrozen(clock: Instant, before: seq<Action>, after: seq<Action>, event: EventId)
    requires Final(Run(Empty(clock), before), event)
    ensures var s := Run(Empty(clock), before);
            var s' := Run(Empty(clock), before + after);
            event in s'.events && s'.events[event] == s.events[event] &&
            Trail(s'.evidence, event) == Trail(s.evidence, event)
  {
    ReachableInv(clock, before);
    RunAppend(Empty(clock), before, after);
    FinalRun(Run(Empty(clock), before), after, event);
  }

  // ------------------------------------------------------------------ fencing

  predicate Settled(s: Tables, ticket: Ticket) {
    exists i :: 0 <= i < |s.evidence| && s.evidence[i].event == ticket.event && s.evidence[i].attempt == ticket.attempt
  }

  predicate Superseded(s: Tables, ticket: Ticket) {
    ticket.event in s.events && s.events[ticket.event].attempts > ticket.attempt
  }

  lemma SpentStays(s: Tables, action: Action, ticket: Ticket)
    requires Settled(s, ticket) || Superseded(s, ticket)
    ensures Settled(Step(s, action), ticket) || Superseded(Step(s, action), ticket)
  {
    if Settled(s, ticket) {
      var i :| 0 <= i < |s.evidence| && s.evidence[i].event == ticket.event && s.evidence[i].attempt == ticket.attempt;
      assert Step(s, action).evidence[i] == s.evidence[i];
    }
  }

  lemma {:induction false} SpentForever(s: Tables, actions: seq<Action>, ticket: Ticket)
    requires Settled(s, ticket) || Superseded(s, ticket)
    ensures Settled(Run(s, actions), ticket) || Superseded(Run(s, actions), ticket)
  {
    if actions != [] {
      SpentForever(s, actions[..|actions| - 1], ticket);
      SpentStays(Run(s, actions[..|actions| - 1]), actions[|actions| - 1], ticket);
    }
  }

  lemma SpentCannotSettle(s: Tables, ticket: Ticket)
    requires Inv(s)
    requires Settled(s, ticket) || Superseded(s, ticket)
    ensures !CanPublish(s, ticket) && !CanFail(s, ticket)
  {
    assert Consistent(ViewOf(s, ticket.event), s.clock);
    if Settled(s, ticket) {
      var i :| 0 <= i < |s.evidence| && s.evidence[i].event == ticket.event && s.evidence[i].attempt == ticket.attempt;
      TrailMembers(s.evidence, i);
    }
  }

  /** Fencing: a ticket that was settled or superseded settles nothing on any continuation,
      whoever presents it and whatever it then claims happened. */
  lemma SpentTicketsAreDead(clock: Instant, before: seq<Action>, after: seq<Action>, ticket: Ticket, owner: WorkerId)
    requires var s := Run(Empty(clock), before); Settled(s, ticket) || Superseded(s, ticket)
    ensures var s := Run(Empty(clock), before + after);
            var t := ticket.(owner := owner);
            && (forall reference: Option<string> :: Step(s, Publish(t, reference)) == s)
            && (forall error: string, next: Instant, dead: bool :: Step(s, Fail(t, error, next, dead)) == s)
  {
    RunAppend(Empty(clock), before, after);
    SpentForever(Run(Empty(clock), before), after, ticket.(owner := owner));
    ReachableInv(clock, before + after);
    SpentCannotSettle(Run(Empty(clock), before + after), ticket.(owner := owner));
  }

  /** Attempt k+1 is claimed only after k was settled, or once the claimant's lease length has
      passed since k was claimed. */
  lemma ReclaimWaits(clock: Instant, actions: seq<Action>, event: EventId, k: nat)
    requires 0 < k < |ClaimsOf(Run(Empty(clock), actions).claims, event)|
    ensures var s := Run(Empty(clock), actions);
            var previous, next := ClaimsOf(s.claims, event)[k - 1], ClaimsOf(s.claims, event)[k];
            && previous.attempt == k && next.attempt == k + 1
            && (|| previous.at + next.leaseSeconds * SECOND < next.at
                || (previous.at <= next.at &&
                    exists e :: e in s.evidence && e.event == event && e.attempt == k && e.recordedAt <= next.at))
  {
    ReachableInv(clock, actions);
    var s := Run(Empty(clock), actions);
    assert Consistent(ViewOf(s, event), s.clock);
    var claims := ClaimsOf(s.claims, event);
    var trail := Trail(s.evidence, event);
    assert MayFollow(claims[k - 1], claims[k], trail);
    TrailIsInTheLog(s.evidence, event);
    if SettledBy(trail, k, claims[k].at) {
      var i :| 0 <= i < |trail| && trail[i].attempt == k && trail[i].recordedAt <= claims[k].at;
      assert trail[i] in s.evidence;
    }
  }

  // ------------------------------------------------------------------ backoff

  // The event still waits after attempt k, or the time it waits for has come.
  predicate Waits(s: Tables, event: EventId, k: nat, next: Instant) {
    && event in s.events
    && (s.clock >= next ||
        (s.events[event].attempts == k && s.events[event].nextAttemptAt == next && s.events[event].leaseOwner.None?))
  }

  lemma {:induction false} WaitsOn(s: Tables, actions: seq<Action>, event: EventId, k: nat, next: Instant)
    requires Waits(s, event, k, next)
    ensures Waits(Run(s, actions), event, k, next)
  {
    if actions != [] {
      WaitsOn(s, actions[..|actions| - 1], event, k, next);
    }
  }

  /** Once a retry has been scheduled, nobody claims the event again before its time, whatever
      lease length they claim with and whatever stale tickets are presented. */
  lemma BackoffIsRespected(clock: Instant, before: seq<Action>, ticket: Ticket, error: string, next: Instant,
                           after: seq<Action>)
    requires CanFail(Run(Empty(clock), before), ticket)
    ensures var s := Run(Empty(clock), before + [Fail(ticket, error, next, false)] + after);
            && ticket.event in s.events && s.events[ticket.event].attempts >= ticket.attempt
            && (s.events[ticket.event].attempts > ticket.attempt ==> s.clock >= next)
  {
    var fail := Fail(ticket, error, next, false);
    RunStep(Empty(clock), before, fail);
    RunAppend(Empty(clock), before + [fail], after);
    var s := Run(Empty(clock), before + [fail]);
    WaitsOn(s, after, ticket.event, ticket.attempt, next);
    AttemptsRise(s, after, ticket.event);
  }

  lemma {:induction false} AttemptsRise(s: Tables, actions: seq<Action>, event: EventId)
    requires event in s.events
    ensures event in Run(s, actions).events && Run(s, actions).events[event].attempts >= s.events[event].attempts
  {
    if actions != [] {
      AttemptsRise(s, actions[..|actions| - 1], event);
    }
  }

  // ------------------------------------------------------------------ nothing is stranded

  // The first moment at which an unsettled row may be claimed with the given lease length.
  function ClaimableFrom(row: EventRow, leaseSeconds: nat): Instant {
    if row.leasedAt.Some? && row.leasedAt.value + leaseSeconds * SECOND >= row.nextAttemptAt then
      row.leasedAt.value + leaseSeconds * SECOND + 1
    else row.nextAttemptAt
  }

  /** Whatever crashed, an event that is neither published nor dead-lettered can still be
      delivered by any worker, from that moment on and not before. */
  lemma UnsettledEventsCanBeDelivered(clock: Instant, actions: seq<Action>, event: EventId, to: Instant,
                                      owner: WorkerId, leaseSeconds: nat, reference: Option<string>)
    requires var s := Run(Empty(clock), actions); event in s.events && !Final(s, event) && to >= s.clock
    ensures var s := Run(Empty(clock), actions);
            var ticket := Ticket(event, s.events[event].attempts + 1, owner);
            var s' := Run(Empty(clock), actions +
                [Tick(to), Claim(owner, event, leaseSeconds), Publish(ticket, reference)]);
            Final(s', event) <==> to >= ClaimableFrom(s.events[event], leaseSeconds)
  {
    hide *;
    var s := Run(Empty(clock), actions);
    var ticket := Ticket(event, s.events[event].attempts + 1, owner);
    var tick, claim, publish := Tick(to), Claim(owner, event, leaseSeconds), Publish(ticket, reference);
    RunStep(Empty(clock), actions, tick);
    RunStep(Empty(clock), actions + [tick], claim);
    RunStep(Empty(clock), actions + [tick] + [claim], publish);
    assert actions + [tick, claim, publish] == actions + [tick] + [claim] + [publish];
    ClaimAndPublish(s, event, to, owner, leaseSeconds, reference);
  }

  lemma ClaimAndPublish(s: Tables, event: EventId, to: Instant, owner: WorkerId, leaseSeconds: nat,
                        reference: Option<string>)
    requires event in s.events && !Final(s, event) && to >= s.clock
    ensures var ticket := Ticket(event, s.events[event].attempts + 1, owner);
            var s' := Step(Step(Step(s, Tick(to)), Claim(owner, event, leaseSeconds)), Publish(ticket, reference));
            Final(s', event) <==> to >= ClaimableFrom(s.events[event], leaseSeconds)
  {
    var ticket := Ticket(event, s.events[event].attempts + 1, owner);
    var ticked := Step(s, Tick(to));
    var claimed := Step(ticked, Claim(owner, event, leaseSeconds));
    var row := s.events[event];
    assert ticked.clock == to && ticked.events == s.events;
    if Claimable(row, to, leaseSeconds) {
      assert claimed.events[event] == Claimed(row, owner, to);
      assert CanPublish(claimed, ticket);
    } else {
      assert claimed == ticked && !CanPublish(claimed, ticket);
    }
  }

  // ------------------------------------------------------------------ the retry budget

  // The worker dead-letters exactly when the attempt it claimed has reached the maximum.
  predicate Governed(actions: seq<Action>, maximum: nat) {
    forall i :: 0 <= i < |actions| && actions[i].Fail? ==>
        actions[i].deadLetter == (actions[i].ticket.attempt >= maximum)
  }

  lemma {:induction false} GovernedEvidence(clock: Instant, actions: seq<Action>, maximum: nat)
    requires Governed(actions, maximum)
    ensures forall e :: e in Run(Empty(clock), actions).evidence ==>
              (e.outcome == Retry ==> e.attempt < maximum) && (e.outcome == DeadLetter ==> e.attempt >= maximum)
  {
    if actions != [] {
      GovernedEvidence(clock, actions[..|actions| - 1], maximum);
    }
  }

  lemma {:induction false} RisingAttempts(trail: seq<Evidence>, i: nat, attempts: nat, clock: Instant)
    requires TrailInOrder(trail, attempts, clock) && i < |trail|
    ensures trail[i].attempt >= i + 1
  {
    if i > 0 {
      RisingAttempts(trail, i - 1, attempts, clock);
      assert trail[i - 1].attempt < trail[i].attempt;
    }
  }

  /** An event is retried fewer than `maximum` times; a dead letter is its last evidence row
      and its attempt number is at least the maximum. */
  lemma RetryBudget(clock: Instant, actions: seq<Action>, maximum: nat, event: EventId)
    requires maximum >= 1 && Governed(actions, maximum)
    ensures var s := Run(Empty(clock), actions);
            var trail := Trail(s.evidence, event);
            && OutcomeRows(s.evidence, event, Retry) <= maximum - 1
            && forall i :: 0 <= i < |trail| && trail[i].outcome == DeadLetter ==>
                 i == |trail| - 1 && trail[i].attempt >= maximum
  {
    ReachableInv(clock, actions);
    GovernedEvidence(clock, actions, maximum);
    var s := Run(Empty(clock), actions);
    var v := ViewOf(s, event);
    assert Consistent(v, s.clock);
    assert v.trail != [] ==> v.row.Some? && TrailInOrder(v.trail, v.row.value.attempts, s.clock);
    RowsAreInTheTrail(s.evidence, event, Retry, 0);
    TrailIsInTheLog(s.evidence, event);
    assert Trail(s.evidence, event) == v.trail;
    hide *;
    if v.trail != [] {
      BudgetOfTrail(v.trail, event, maximum, v.row.value.attempts, s.clock);
    } else {
      NoRows(event);
    }
  }

  lemma NoRows(event: EventId)
    ensures OutcomeRows([], event, Retry) == 0
  {
  }

  lemma BudgetOfTrail(trail: seq<Evidence>, event: EventId, maximum: nat, attempts: nat, clock: Instant)
    requires trail != [] && TrailInOrder(trail, attempts, clock) && maximum >= 1
    requires forall i :: 0 <= i < |trail| ==> trail[i].event == event
    requires forall i :: 0 <= i < |trail| ==>
             (trail[i].outcome == Retry ==> trail[i].attempt < maximum) &&
             (trail[i].outcome == DeadLetter ==> trail[i].attempt >= maximum)
    ensures OutcomeRows(trail, event, Retry) <= maximum - 1
    ensures forall i :: 0 <= i < |trail| && trail[i].outcome == DeadLetter ==>
            i == |trail| - 1 && trail[i].attempt >= maximum
  {
    RowsOfTrail(trail, event, Retry, attempts, clock);
    hide OutcomeRows;
    var retries := OutcomeRows(trail, event, Retry);
    if retries > 0 {
      RisingAttempts(trail, retries - 1, attempts, clock);
    }
  }

  function CrashClock(start: Instant, leaseSeconds: nat, n: nat): Instant {
    if n == 0 then start else CrashClock(start, leaseSeconds, n - 1) + leaseSeconds * SECOND + 1
  }

  // The action takes over a lease that ran out unacknowledged at the maximum.
  predicate TakesOverTheLast(s: Tables, action: Action, event: EventId, maximum: nat) {
    && action.Claim? && action.event == event && event in s.events
    && var row := s.events[event];
       && row.attempts == maximum && row.nextAttemptAt <= s.clock
       && row.leasedAt.Some? && row.leasedAt.value < s.clock - action.leaseSeconds * SECOND
  }

  /** One step pushes an event's attempts past the maximum exactly when it takes over a lease
      that ran out unacknowledged at the maximum. */
  lemma OverrunStep(clock: Instant, actions: seq<Action>, action: Action, event: EventId, maximum: nat)
    requires maximum >= 1 && Governed(actions, maximum)
    requires var s := Run(Empty(clock), actions); event in s.events ==> s.events[event].attempts <= maximum
    ensures var s := Run(Empty(clock), actions);
            var s' := Step(s, action);
            event in s'.events && s'.events[event].attempts > maximum <==> TakesOverTheLast(s, action, event, maximum)
  {
    hide *;
    if event in Run(Empty(clock), actions).events {
      EndedAtTheMaximum(clock, actions, event, maximum);
    }
    OverrunOf(Run(Empty(clock), actions), action, event, maximum);
  }

  // At the maximum an event either has a lease or was settled for good.
  predicate EndedWithoutLease(row: EventRow, maximum: nat) {
    row.attempts == maximum ==> (row.leasedAt.None? <==> row.publishedAt.Some? || row.deadLetteredAt.Some?)
  }

  lemma EndedAtTheMaximum(clock: Instant, actions: seq<Action>, event: EventId, maximum: nat)
    requires maximum >= 1 && Governed(actions, maximum) && event in Run(Empty(clock), actions).events
    ensures EndedWithoutLease(Run(Empty(clock), actions).events[event], maximum)
  {
    hide Run, Governed, Consistent, Trail, ClaimsOf, Count;
    var s := Run(Empty(clock), actions);
    ReachableInv(clock, actions);
    assert Consistent(ViewOf(s, event), s.clock);
    GovernedEvidence(clock, actions, maximum);
    TrailIsInTheLog(s.evidence, event);
    if s.events[event].attempts == maximum {
      AtTheMaximum(ViewOf(s, event), s.clock, maximum);
    }
  }

  lemma OverrunOf(s: Tables, action: Action, event: EventId, maximum: nat)
    requires event in s.events ==> s.events[event].attempts <= maximum && EndedWithoutLease(s.events[event], maximum)
    requires maximum >= 1
    ensures var s' := Step(s, action);
            event in s'.events && s'.events[event].attempts > maximum <==> TakesOverTheLast(s, action, event, maximum)
  {
    hide Truncate;
  }

  lemma AtTheMaximum(v: View, clock: Instant, maximum: nat)
    requires maximum >= 1 && Consistent(v, clock) && v.row.Some? && v.row.value.attempts == maximum
    requires forall i :: 0 <= i < |v.trail| ==>
             (v.trail[i].outcome == Retry ==> v.trail[i].attempt < maximum) &&
             (v.trail[i].outcome == DeadLetter ==> v.trail[i].attempt >= maximum)
    ensures v.row.value.leasedAt.None? <==> v.row.value.publishedAt.Some? || v.row.value.deadLetteredAt.Some?
  {
    if v.row.value.leasedAt.None? {
      assert v.trail[|v.trail| - 1].outcome != Retry;
    }
  }

  // Some action of the run took over a lease that ran out unacknowledged at the maximum.
  predicate TookOverTheLast(clock: Instant, actions: seq<Action>, event: EventId, maximum: nat) {
    actions != [] &&
    var shorter, last := actions[..|actions| - 1], actions[|actions| - 1];
    TookOverTheLast(clock, shorter, event, maximum) ||
        TakesOverTheLast(Run(Empty(clock), shorter), last, event, maximum)
  }

  /** The exact condition over a run: an event's attempts exceed the maximum if and only if some
      claim took over a lease that ran out unacknowledged at the maximum. */
  lemma {:induction false} AttemptsOverrunExactlyWhen(clock: Instant, actions: seq<Action>, event: EventId,
                                                      maximum: nat)
    requires maximum >= 1 && Governed(actions, maximum)
    ensures var s := Run(Empty(clock), actions);
            event in s.events && s.events[event].attempts > maximum <==> TookOverTheLast(clock, actions, event, maximum)
  {
    if actions != [] {
      var shorter, last := actions[..|actions| - 1], actions[|actions| - 1];
      AttemptsOverrunExactlyWhen(clock, shorter, event, maximum);
      var s := Run(Empty(clock), shorter);
      if event in s.events && s.events[event].attempts > maximum {
        AttemptsRise(s, [last], event);
        RunStep(s, [], last);
        assert [] + [last] == [last];
      } else {
        OverrunStep(clock, shorter, last, event, maximum);
      }
    }
  }

  // A worker that claims and crashes, over and over, with nobody ever acknowledging.
  function CrashLoop(event: EventId, owner: WorkerId, start: Instant, leaseSeconds: nat, n: nat): seq<Action> {
    if n == 0 then [Produce(event)]
    else
      CrashLoop(event, owner, start, leaseSeconds, n - 1) +
      [Tick(CrashClock(start, leaseSeconds, n)), Claim(owner, event, leaseSeconds)]
  }

  /** The maximum bounds acknowledged failures, not claims: crashes push `attempts` past any bound. */
  lemma {:induction false} CrashesOverrunAnyMaximum(event: EventId, owner: WorkerId, start: Instant,
                                                    leaseSeconds: nat, n: nat, maximum: nat)
    ensures var run := CrashLoop(event, owner, start, leaseSeconds, n);
            var s := Run(Empty(start), run);
            && Governed(run, maximum)
            && s.clock == CrashClock(start, leaseSeconds, n) >= start
            && event in s.events && s.events[event].attempts == n
            && s.events[event].publishedAt.None? && s.events[event].deadLetteredAt.None?
            && s.events[event].nextAttemptAt == start
            && s.events[event].leasedAt == (if n == 0 then None else Some(s.clock))
  {
    var run := CrashLoop(event, owner, start, leaseSeconds, n);
    if n == 0 {
      assert run == [] + [Produce(event)];
      RunStep(Empty(start), [], Produce(event));
    } else {
      hide Run;
      CrashesOverrunAnyMaximum(event, owner, start, leaseSeconds, n - 1, maximum);
      var shorter := CrashLoop(event, owner, start, leaseSeconds, n - 1);
      var tick := Tick(CrashClock(start, leaseSeconds, n));
      assert run == (shorter + [tick]) + [Claim(owner, event, leaseSeconds)];
      RunStep(Empty(start), shorter, tick);
      RunStep(Empty(start), shorter + [tick], Claim(owner, event, leaseSeconds));
    }
  }
}
