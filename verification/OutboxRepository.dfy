// The repository over the outbox tables: each method is one committed transaction.
module OutboxRepository {
  import opened Wrappers
  import opened Outbox

  predicate Distinct<T(==)>(xs: seq<T>) {
    forall i, j :: 0 <= i < j < |xs| ==> xs[i] != xs[j]
  }

  predicate Eligible(s: Tables, event: EventId, leaseSeconds: nat) {
    event in s.events && Claimable(s.events[event], s.clock, leaseSeconds)
  }

  // The first `limit` eligible rows of those the query visits.
  function Candidates(s: Tables, visible: seq<EventId>, limit: nat, leaseSeconds: nat): seq<EventId> {
    if visible == [] || limit == 0 then []
    else if Eligible(s, visible[0], leaseSeconds) then
      [visible[0]] + Candidates(s, visible[1..], limit - 1, leaseSeconds)
    else Candidates(s, visible[1..], limit, leaseSeconds)
  }

  lemma CandidatesStep(s: Tables, taken: seq<EventId>, visible: seq<EventId>, limit: nat, leaseSeconds: nat)
    requires visible != [] && limit > 0
    ensures taken + Candidates(s, visible, limit, leaseSeconds) ==
            if Eligible(s, visible[0], leaseSeconds)
            then (taken + [visible[0]]) + Candidates(s, visible[1..], limit - 1, leaseSeconds)
            else taken + Candidates(s, visible[1..], limit, leaseSeconds)
  {
  }

  function ClaimActions(claimed: seq<Ticket>, leaseSeconds: nat): seq<Action> {
    seq(|claimed|, i requires 0 <= i < |claimed| => Claim(claimed[i].owner, claimed[i].event, leaseSeconds))
  }

  lemma ClaimActionsAppend(claimed: seq<Ticket>, ticket: Ticket, leaseSeconds: nat)
    ensures ClaimActions(claimed + [ticket], leaseSeconds) ==
            ClaimActions(claimed, leaseSeconds) + [Claim(ticket.owner, ticket.event, leaseSeconds)]
  {
  }

  function EventsOf(tickets: seq<Ticket>): seq<EventId> {
    seq(|tickets|, i requires 0 <= i < |tickets| => tickets[i].event)
  }

  // The clock and the listed rows are as they were.
  predicate Untouched(s: Tables, s': Tables, rows: seq<EventId>) {
    s'.clock == s.clock && forall event :: event in rows ==>
      (event in s'.events <==> event in s.events) && (event in s.events ==> s'.events[event] == s.events[event])
  }

  lemma StillUntouched(s: Tables, s': Tables, action: Action, visible: seq<EventId>, i: nat)
    requires i < |visible| && Distinct(visible) && Untouched(s, s', visible[i..])
    requires action.Claim? && action.event == visible[i]
    ensures Untouched(s, Step(s', action), visible[i + 1..])
    ensures Eligible(s', visible[i], action.leaseSeconds) == Eligible(s, visible[i], action.leaseSeconds)
  {
    assert visible[i] in visible[i..];
    forall event | event in visible[i + 1..]
      ensures event in visible[i..] && event != visible[i]
    {
      var k :| 0 <= k < |visible[i + 1..]| && visible[i + 1..][k] == event;
      assert visible[i + 1 + k] == event == visible[i..][k + 1];
    }
  }

  lemma EventsOfAppend(s: Tables, claimed: seq<Ticket>, ticket: Ticket, owner: WorkerId, visible: seq<EventId>, i: nat)
    requires i < |visible| && Distinct(visible) && ticket.event == visible[i]
    requires Distinct(EventsOf(claimed)) && AllHeld(s, claimed, owner, visible[..i])
    ensures EventsOf(claimed + [ticket]) == EventsOf(claimed) + [ticket.event]
    ensures Distinct(EventsOf(claimed + [ticket]))
  {
    assert visible[..i + 1] == visible[..i] + [visible[i]];
    forall k | 0 <= k < |claimed|
      ensures claimed[k].event != ticket.event
    {
      assert claimed[k] in claimed;
    }
  }

  predicate AllHeld(s: Tables, claimed: seq<Ticket>, owner: WorkerId, visited: seq<EventId>) {
    forall t :: t in claimed ==> t.owner == owner && t.event in visited && CanPublish(s, t)
  }

  lemma StillHeld(s: Tables, action: Action, claimed: seq<Ticket>, visible: seq<EventId>, i: nat)
    requires i < |visible| && Distinct(visible) && action.Claim? && action.event == visible[i]
    requires AllHeld(s, claimed, action.owner, visible[..i])
    ensures AllHeld(Step(s, action), claimed, action.owner, visible[..i + 1])
  {
    assert visible[..i + 1] == visible[..i] + [visible[i]];
  }

  // The claim has visited the first i rows and started from tables s.
  predicate Claiming(s: Tables, now: Tables, claimed: seq<Ticket>, owner: WorkerId, visible: seq<EventId>, i: nat,
                     batchSize: nat, leaseSeconds: nat)
    requires i <= |visible| && |claimed| <= batchSize
  {
    && Untouched(s, now, visible[i..])
    && Candidates(s, visible, batchSize, leaseSeconds) ==
       EventsOf(claimed) + Candidates(s, visible[i..], batchSize - |claimed|, leaseSeconds)
    && now == Run(s, ClaimActions(claimed, leaseSeconds))
    && AllHeld(now, claimed, owner, visible[..i])
    && Distinct(EventsOf(claimed))
  }

  lemma NothingClaimed(s: Tables, owner: WorkerId, visible: seq<EventId>, batchSize: nat, leaseSeconds: nat)
    ensures Claiming(s, s, [], owner, visible, 0, batchSize, leaseSeconds)
  {
    assert visible[0..] == visible;
  }

  lemma ClaimTurn(s: Tables, before: Tables, claimed: seq<Ticket>, owner: WorkerId, visible: seq<EventId>, i: nat,
                  batchSize: nat, leaseSeconds: nat, ticket: Option<Ticket>)
    requires Distinct(visible) && i < |visible| && |claimed| < batchSize
    requires Claiming(s, before, claimed, owner, visible, i, batchSize, leaseSeconds)
    requires ticket.Some? <==> Eligible(before, visible[i], leaseSeconds)
    requires ticket.Some? ==> ticket.value.event == visible[i] && ticket.value.owner == owner
    requires ticket.Some? ==> CanPublish(Step(before, Claim(owner, visible[i], leaseSeconds)), ticket.value)
    ensures Claiming(s, Step(before, Claim(owner, visible[i], leaseSeconds)),
                     if ticket.Some? then claimed + [ticket.value] else claimed, owner, visible, i + 1, batchSize,
                         leaseSeconds)
  {
    var claim := Claim(owner, visible[i], leaseSeconds);
    assert ticket.None? ==> Step(before, claim) == before;
    assert visible[i..][1..] == visible[i + 1..] && visible[i..][0] == visible[i];
    hide Step, Run, CanPublish, Eligible, Candidates, ClaimActions, EventsOf, Untouched, Distinct, AllHeld;
    CandidatesStep(s, EventsOf(claimed), visible[i..], batchSize - |claimed|, leaseSeconds);
    StillHeld(before, claim, claimed, visible, i);
    StillUntouched(s, before, claim, visible, i);
    if ticket.Some? {
      ClaimActionsAppend(claimed, ticket.value, leaseSeconds);
      RunStep(s, ClaimActions(claimed, leaseSeconds), claim);
      EventsOfAppend(before, claimed, ticket.value, owner, visible, i);
      HoldsOneMore(Step(before, claim), claimed, ticket.value, owner, visible, i);
    }
  }

  lemma HoldsOneMore(s: Tables, claimed: seq<Ticket>, ticket: Ticket, owner: WorkerId, visible: seq<EventId>, i: nat)
    requires i < |visible| && AllHeld(s, claimed, owner, visible[..i + 1])
    requires ticket.owner == owner && ticket.event == visible[i] && CanPublish(s, ticket)
    ensures AllHeld(s, claimed + [ticket], owner, visible[..i + 1])
  {
    hide CanPublish;
    assert visible[..i + 1][i] == visible[i];
  }

  lemma AllClaimed(s: Tables, now: Tables, claimed: seq<Ticket>, owner: WorkerId, visible: seq<EventId>, i: nat,
                   batchSize: nat, leaseSeconds: nat)
    requires i <= |visible| && |claimed| <= batchSize && (i == |visible| || |claimed| == batchSize)
    requires Claiming(s, now, claimed, owner, visible, i, batchSize, leaseSeconds)
    ensures EventsOf(claimed) == Candidates(s, visible, batchSize, leaseSeconds) && Distinct(EventsOf(claimed))
    ensures now == Run(s, ClaimActions(claimed, leaseSeconds))
    ensures forall t :: t in claimed ==> t.owner == owner && CanPublish(now, t)
  {
    assert Candidates(s, visible[i..], batchSize - |claimed|, leaseSeconds) == [];
  }

  class Repository {
    var events: map<EventId, EventRow>
    var evidence: seq<Evidence>
    var enqueued: seq<EventId>
    var clock: Instant
    ghost var claims: seq<ClaimRecord>

    ghost function Model(): Tables
      reads this
    {
      Tables(events, evidence, enqueued, claims, clock)
    }

    constructor (now: Instant)
      ensures Model() == Empty(now)
    {
      events, evidence, enqueued, clock, claims := map[], [], [], now, [];
    }

    // The UPDATE of the claim, on one candidate row.
    method ClaimRow(owner: WorkerId, event: EventId, leaseSeconds: nat) returns (ticket: Option<Ticket>)
      modifies this
      ensures Model() == Step(old(Model()), Action.Claim(owner, event, leaseSeconds))
      ensures ticket.Some? <==> Eligible(old(Model()), event, leaseSeconds)
      ensures ticket.Some? ==>
        ticket.value.event == event && ticket.value.owner == owner && CanPublish(Model(), ticket.value)
      ensures ticket.None? ==> Model() == old(Model())
    {
      ticket := None;
      if event in events {
        var row := events[event];
        if row.publishedAt.None? && row.deadLetteredAt.None? && row.nextAttemptAt <= clock
           && (row.leasedAt.None? || row.leasedAt.value < clock - leaseSeconds * SECOND) {
          row := row.(leasedAt := Some(clock), leaseOwner := Some(owner), attempts := row.attempts + 1);
          events := events[event := row];
          claims := claims + [ClaimRecord(event, row.attempts, clock, leaseSeconds)];
          ticket := Some(Ticket(event, row.attempts, owner));
        }
      }
    }

    /** `visible` lists the rows the query can lock, in its ORDER BY order; rows that another
        transaction holds are skipped and so are not listed. */
    method Claim(owner: WorkerId, visible: seq<EventId>, batchSize: nat, leaseSeconds: nat)
      returns (claimed: seq<Ticket>)
      requires Distinct(visible)
      modifies this
      ensures EventsOf(claimed) == Candidates(old(Model()), visible, batchSize, leaseSeconds)
      ensures Model() == Run(old(Model()), ClaimActions(claimed, leaseSeconds))
      ensures forall t :: t in claimed ==> t.owner == owner && CanPublish(Model(), t)
      ensures |claimed| <= batchSize && Distinct(EventsOf(claimed))
    {
      ghost var s := Model();
      hide Step, Run, CanPublish, Eligible, Distinct, Candidates, ClaimActions, EventsOf, Claiming;
      claimed := [];
      var i := 0;
      NothingClaimed(s, owner, visible, batchSize, leaseSeconds);
      while i < |visible| && |claimed| < batchSize
        invariant 0 <= i <= |visible| && |claimed| <= batchSize
        invariant Claiming(s, Model(), claimed, owner, visible, i, batchSize, leaseSeconds)
      {
        ghost var before := Model();
        var ticket := ClaimRow(owner, visible[i], leaseSeconds);
        ClaimTurn(s, before, claimed, owner, visible, i, batchSize, leaseSeconds, ticket);
        if ticket.Some? {
          claimed := claimed + [ticket.value];
        }
        i := i + 1;
      }
      AllClaimed(s, Model(), claimed, owner, visible, i, batchSize, leaseSeconds);
    }

    method MarkPublished(ticket: Ticket, reference: Option<string>) returns (updated: bool)
      modifies this
      ensures updated == CanPublish(old(Model()), ticket)
      ensures Model() == Step(old(Model()), Publish(ticket, reference))
    {
      updated := false;
      if ticket.event in events {
        var row := events[ticket.event];
        if row.leaseOwner == Some(ticket.owner) && row.attempts == ticket.attempt
           && row.publishedAt.None? && row.deadLetteredAt.None? {
          events := events[ticket.event := row.(publishedAt := Some(clock), publishedReference := reference,
                                                leasedAt := None, leaseOwner := None, lastError := None)];
          evidence := evidence + [Evidence(ticket.event, ticket.attempt, Delivered, ticket.owner, clock)];
          enqueued := enqueued + [ticket.event];
          updated := true;
        }
      }
    }

    method MarkFailed(ticket: Ticket, error: string, nextAttempt: Instant, deadLetter: bool) returns (updated: bool)
      modifies this
      ensures updated == CanFail(old(Model()), ticket)
      ensures Model() == Step(old(Model()), Fail(ticket, error, nextAttempt, deadLetter))
    {
      updated := false;
      if ticket.event in events {
        var row := events[ticket.event];
        if row.leaseOwner == Some(ticket.owner) && row.attempts == ticket.attempt && row.publishedAt.None? {
          events := events[ticket.event := row.(lastError := Some(Truncate(error, 2000)), nextAttemptAt := nextAttempt,
                                                deadLetteredAt := if deadLetter then Some(clock) else None,
                                                leasedAt := None, leaseOwner := None)];
          evidence := evidence + [Evidence(ticket.event, ticket.attempt, if deadLetter then DeadLetter else Retry,
                                           ticket.owner, clock)];
          updated := true;
        }
      }
    }

    // One step of anybody else.
    method Perform(action: Action)
      modifies this
      ensures Model() == Step(old(Model()), action)
    {
      match action {
        case Tick(to) =>
          clock := if to > clock then to else clock;
        case Produce(event) =>
          if event !in events {
            events := events[event := FRESH.(nextAttemptAt := clock)];
          }
        case Claim(owner, event, leaseSeconds) =>
          var claimed := Claim(owner, [event], 1, leaseSeconds);
          SingleClaim(old(Model()), owner, event, leaseSeconds, claimed);
        case Publish(ticket, reference) =>
          var _ := MarkPublished(ticket, reference);
        case Fail(ticket, error, nextAttempt, deadLetter) =>
          var _ := MarkFailed(ticket, error, nextAttempt, deadLetter);
      }
    }

    // What the rest of the system does while a worker is between two of its own steps.
    method Meanwhile(actions: seq<Action>)
      modifies this
      ensures Model() == Run(old(Model()), actions)
    {
      for i := 0 to |actions|
        invariant Model() == Run(old(Model()), actions[..i])
      {
        assert actions[..i + 1] == actions[..i] + [actions[i]];
        RunStep(old(Model()), actions[..i], actions[i]);
        Perform(actions[i]);
      }
      assert actions[..|actions|] == actions;
    }
  }

  lemma SingleClaim(s: Tables, owner: WorkerId, event: EventId, leaseSeconds: nat, claimed: seq<Ticket>)
    requires EventsOf(claimed) == Candidates(s, [event], 1, leaseSeconds)
    requires forall i :: 0 <= i < |claimed| ==> claimed[i].owner == owner
    ensures Run(s, ClaimActions(claimed, leaseSeconds)) == Step(s, Claim(owner, event, leaseSeconds))
  {
    if Eligible(s, event, leaseSeconds) {
      assert Candidates(s, [event], 1, leaseSeconds) == [event];
      assert |EventsOf(claimed)| == 1 && EventsOf(claimed)[0] == event;
      assert ClaimActions(claimed, leaseSeconds) == [] + [Claim(owner, event, leaseSeconds)];
      RunStep(s, [], Claim(owner, event, leaseSeconds));
    } else {
      assert Candidates(s, [event], 1, leaseSeconds) == [];
      assert |EventsOf(claimed)| == 0;
      assert ClaimActions(claimed, leaseSeconds) == [];
    }
  }
}
