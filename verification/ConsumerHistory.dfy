/**
  What the inbox says about the past, which acknowledgements count, and that a claim leaves nothing
  ready behind.
*/
module ConsumerHistory {
  import opened Wrappers
  import opened Consumer
  import opened ConsumerRuntime

  type Definitions = map<ConsumerKey, Definition>

  // The tables before the i-th step of the run.
  function Then(ds: Definitions, clock: Instant, actions: seq<Action>, i: nat): Tables
    requires i <= |actions|
  {
    Run(Empty(ds, clock), actions[..i])
  }

  // The i-th step claimed this attempt for this worker.
  predicate ClaimedAt(ds: Definitions, clock: Instant, actions: seq<Action>, i: nat, ticket: Ticket)
    requires i < |actions|
  {
    var s, d := Then(ds, clock, actions, i), ticket.delivery;
    && actions[i] == Action.Claim(ticket.owner, d)
    && d in s.inbox && s.inbox[d].attempts + 1 == ticket.attempt
    && d in Step(s, actions[i]).inbox && Step(s, actions[i]).inbox[d].attempts == ticket.attempt
  }

  predicate HasClaimed(ds: Definitions, clock: Instant, actions: seq<Action>, ticket: Ticket) {
    exists i :: 0 <= i < |actions| && ClaimedAt(ds, clock, actions, i, ticket)
  }

  predicate EnqueuedAt(ds: Definitions, clock: Instant, actions: seq<Action>, i: nat, d: DeliveryId, row: InboxRow)
    requires i < |actions|
  {
    actions[i] == Enqueue(d) && row.nextAttemptAt == Then(ds, clock, actions, i).clock
  }

  predicate SettledAt(actions: seq<Action>, i: nat, d: DeliveryId, row: InboxRow)
    requires i < |actions|
  {
    && (actions[i].Complete? || actions[i].Fail?)
    && actions[i].ticket.delivery == d && actions[i].ticket.attempt == row.attempts
    && (if actions[i].Complete? then row.state == Completed
        else row.nextAttemptAt == actions[i].nextAttempt &&
             row.state == if actions[i].deadLetter then DeadLettered else Retrying)
  }

  // A row waits since it was enqueued, is held by the worker that claimed its last attempt, or is
  // as the acknowledgement of its last attempt has left it.
  predicate RowIsTold(ds: Definitions, clock: Instant, actions: seq<Action>, d: DeliveryId, row: InboxRow) {
    match row.state
    case Pending => exists i :: 0 <= i < |actions| && EnqueuedAt(ds, clock, actions, i, d, row)
    case Processing =>
      row.leaseOwner.Some? && HasClaimed(ds, clock, actions, Ticket(d, row.attempts, row.leaseOwner.value))
    case _ => exists i :: 0 <= i < |actions| && SettledAt(actions, i, d, row)
  }

  // Evidence names the worker that had claimed that very attempt, and what it reported of it.
  predicate EvidenceIsTold(ds: Definitions, clock: Instant, actions: seq<Action>, e: Evidence) {
    var ticket := Ticket(e.delivery, e.attempt, e.worker);
    && HasClaimed(ds, clock, actions, ticket)
    && match e.outcome
       case Delivered => Complete(ticket) in actions
       case _ => exists i :: 0 <= i < |actions| && Reported(actions[i], ticket, e.outcome)
  }

  predicate Reported(action: Action, ticket: Ticket, outcome: Outcome) {
    action.Fail? && action.ticket == ticket && (action.deadLetter <==> outcome == DeadLetter)
  }

  predicate AllEvidenceIsTold(ds: Definitions, clock: Instant, actions: seq<Action>, log: seq<Evidence>) {
    forall k :: 0 <= k < |log| ==> EvidenceIsTold(ds, clock, actions, log[k])
  }

  lemma ThenStays(ds: Definitions, clock: Instant, actions: seq<Action>, a: Action, i: nat)
    requires i <= |actions|
    ensures Then(ds, clock, actions + [a], i) == Then(ds, clock, actions, i)
    ensures i < |actions| ==> (actions + [a])[i] == actions[i]
  {
    assert (actions + [a])[..i] == actions[..i];
  }

  lemma ThenNow(ds: Definitions, clock: Instant, actions: seq<Action>, a: Action)
    ensures Then(ds, clock, actions + [a], |actions|) == Run(Empty(ds, clock), actions)
    ensures (actions + [a])[|actions|] == a
  {
    assert (actions + [a])[..|actions|] == actions;
  }

  lemma ClaimStays(ds: Definitions, clock: Instant, actions: seq<Action>, a: Action, ticket: Ticket)
    requires HasClaimed(ds, clock, actions, ticket)
    ensures HasClaimed(ds, clock, actions + [a], ticket)
  {
    hide Then;
    var i :| 0 <= i < |actions| && ClaimedAt(ds, clock, actions, i, ticket);
    ThenStays(ds, clock, actions, a, i);
    assert ClaimedAt(ds, clock, actions + [a], i, ticket);
  }

  lemma RowStays(ds: Definitions, clock: Instant, actions: seq<Action>, a: Action, d: DeliveryId, row: InboxRow)
    requires RowIsTold(ds, clock, actions, d, row)
    ensures RowIsTold(ds, clock, actions + [a], d, row)
  {
    hide Then, HasClaimed;
    var more := actions + [a];
    if row.state == Processing {
      ClaimStays(ds, clock, actions, a, Ticket(d, row.attempts, row.leaseOwner.value));
    }
    forall i | 0 <= i < |actions|
      ensures EnqueuedAt(ds, clock, actions, i, d, row) ==> EnqueuedAt(ds, clock, more, i, d, row)
      ensures SettledAt(actions, i, d, row) ==> SettledAt(more, i, d, row)
    {
      ThenStays(ds, clock, actions, a, i);
    }
  }

  lemma RowNext(ds: Definitions, clock: Instant, actions: seq<Action>, a: Action, d: DeliveryId)
    requires var s := Run(Empty(ds, clock), actions); d in s.inbox ==> RowIsTold(ds, clock, actions, d, s.inbox[d])
    requires d in Step(Run(Empty(ds, clock), actions), a).inbox
    ensures RowIsTold(ds, clock, actions + [a], d, Step(Run(Empty(ds, clock), actions), a).inbox[d])
  {
    hide Then, Run, Empty;
    var s, i, more := Run(Empty(ds, clock), actions), |actions|, actions + [a];
    var row := Step(s, a).inbox[d];
    ThenNow(ds, clock, actions, a);
    assert Then(ds, clock, more, i) == s && more[i] == a && i < |more|;
    if d in s.inbox && row == s.inbox[d] {
      RowStays(ds, clock, actions, a, d, row);
    } else if a.Enqueue? {
      assert EnqueuedAt(ds, clock, more, i, d, row);
    } else if a.Claim? {
      assert ClaimedAt(ds, clock, more, i, Ticket(d, row.attempts, a.owner));
    } else {
      assert SettledAt(more, i, d, row);
    }
  }

  lemma EvidenceStays(ds: Definitions, clock: Instant, actions: seq<Action>, a: Action, e: Evidence)
    requires EvidenceIsTold(ds, clock, actions, e)
    ensures EvidenceIsTold(ds, clock, actions + [a], e)
  {
    hide HasClaimed;
    ClaimStays(ds, clock, actions, a, Ticket(e.delivery, e.attempt, e.worker));
    if e.outcome != Delivered {
      var i :| 0 <= i < |actions| && Reported(actions[i], Ticket(e.delivery, e.attempt, e.worker), e.outcome);
      assert (actions + [a])[i] == actions[i];
    }
  }

  lemma EvidenceNext(ds: Definitions, clock: Instant, actions: seq<Action>, a: Action)
    requires var s := Run(Empty(ds, clock), actions);
             && AllEvidenceIsTold(ds, clock, actions, s.evidence)
             && forall d :: d in s.inbox ==> RowIsTold(ds, clock, actions, d, s.inbox[d])
    ensures AllEvidenceIsTold(ds, clock, actions + [a], Step(Run(Empty(ds, clock), actions), a).evidence)
  {
    hide Then, Run, Empty, HasClaimed;
    var s, n, more := Run(Empty(ds, clock), actions), |actions|, actions + [a];
    forall k | 0 <= k < |s.evidence|
      ensures EvidenceIsTold(ds, clock, more, s.evidence[k])
    {
      EvidenceStays(ds, clock, actions, a, s.evidence[k]);
    }
    if Step(s, a).evidence != s.evidence {
      var e := Step(s, a).evidence[|s.evidence|];
      assert Step(s, a).evidence == s.evidence + [e] && more[n] == a;
      assert RowIsTold(ds, clock, actions, e.delivery, s.inbox[e.delivery]);
      ClaimStays(ds, clock, actions, a, a.ticket);
      if a.Fail? {
        assert Reported(more[n], a.ticket, e.outcome);
      }
    }
  }

  /** On every run, what a row and its evidence say is what the enqueueing, the claim or the
      acknowledgement that wrote them said. */
  lemma {:induction false} TablesTellThePast(ds: Definitions, clock: Instant, actions: seq<Action>)
    ensures var s := Run(Empty(ds, clock), actions);
            && AllEvidenceIsTold(ds, clock, actions, s.evidence)
            && forall d :: d in s.inbox ==> RowIsTold(ds, clock, actions, d, s.inbox[d])
  {
    if actions != [] {
      var before, a := actions[..|actions| - 1], actions[|actions| - 1];
      TablesTellThePast(ds, clock, before);
      hide RowIsTold, AllEvidenceIsTold, Step, Empty;
      assert actions == before + [a];
      RunStep(Empty(ds, clock), before, a);
      EvidenceNext(ds, clock, before, a);
      forall d | d in Step(Run(Empty(ds, clock), before), a).inbox
        ensures RowIsTold(ds, clock, actions, d, Step(Run(Empty(ds, clock), before), a).inbox[d])
      {
        RowNext(ds, clock, before, a, d);
      }
    }
  }

  // ------------------------------------------------------------------ which acknowledgements count

  // Nobody has settled this attempt.
  predicate Unsettled(log: seq<Evidence>, ticket: Ticket) {
    forall k :: 0 <= k < |log| ==> !(log[k].delivery == ticket.delivery && log[k].attempt == ticket.attempt)
  }

  lemma {:induction false} ClaimLasts(ds: Definitions, clock: Instant, actions: seq<Action>, ticket: Ticket)
    requires HasClaimed(ds, clock, actions, ticket)
    ensures var s := Run(Empty(ds, clock), actions);
            Holds(s, ticket) || !Unsettled(s.evidence, ticket)
  {
    var before, a := actions[..|actions| - 1], actions[|actions| - 1];
    assert actions == before + [a];
    RunStep(Empty(ds, clock), before, a);
    ThenNow(ds, clock, before, a);
    var i :| 0 <= i < |actions| && ClaimedAt(ds, clock, actions, i, ticket);
    if i < |before| {
      ThenStays(ds, clock, before, a, i);
      assert ClaimedAt(ds, clock, before, i, ticket);
      ClaimLasts(ds, clock, before, ticket);
      LastsOn(Run(Empty(ds, clock), before), a, ticket);
    } else {
      hide Run, Then, Empty, Unsettled;
    }
  }

  lemma LastsOn(s: Tables, a: Action, ticket: Ticket)
    requires Holds(s, ticket) || !Unsettled(s.evidence, ticket)
    ensures Holds(Step(s, a), ticket) || !Unsettled(Step(s, a).evidence, ticket)
  {
    var s', n := Step(s, a), |s.evidence|;
    if !Unsettled(s.evidence, ticket) {
      var k :| 0 <= k < n && s.evidence[k].delivery == ticket.delivery && s.evidence[k].attempt == ticket.attempt;
      assert s'.evidence[k] == s.evidence[k];
    } else if !Holds(s', ticket) {
      assert s'.evidence[n].delivery == ticket.delivery && s'.evidence[n].attempt == ticket.attempt;
    }
  }

  /** An acknowledgement changes the tables if and only if its worker claimed that very attempt and
      nobody has settled it yet; until then nobody else can have claimed the row. */
  lemma AcknowledgementCountsExactlyWhen(ds: Definitions, clock: Instant, actions: seq<Action>, ack: Action)
    requires ack.Complete? || ack.Fail?
    ensures var s := Run(Empty(ds, clock), actions);
            Step(s, ack) != s <==> HasClaimed(ds, clock, actions, ack.ticket) && Unsettled(s.evidence, ack.ticket)
  {
    var s, ticket := Run(Empty(ds, clock), actions), ack.ticket;
    TablesTellThePast(ds, clock, actions);
    ReachableInv(ds, clock, actions);
    hide Run, Empty, HasClaimed, Accounts, Inv;
    if HasClaimed(ds, clock, actions, ticket) {
      ClaimLasts(ds, clock, actions, ticket);
    }
    if Holds(s, ticket) {
      assert RowIsTold(ds, clock, actions, ticket.delivery, s.inbox[ticket.delivery]);
      HeldIsUnsettled(s, ticket);
    }
    assert |s.evidence + [Evidence(ticket.delivery, ticket.attempt, Delivered, ticket.owner)]| != |s.evidence|;
  }

  lemma HeldIsUnsettled(s: Tables, ticket: Ticket)
    requires Inv(s) && Holds(s, ticket)
    ensures Unsettled(s.evidence, ticket)
  {
    assert Accounts(s.inbox[ticket.delivery], Trail(s.evidence, ticket.delivery));
    TrailHasAll(s.evidence, ticket.delivery);
    hide Trail;
    var trail := Trail(s.evidence, ticket.delivery);
    forall k | 0 <= k < |s.evidence| && s.evidence[k].delivery == ticket.delivery
      ensures s.evidence[k].attempt < ticket.attempt
    {
      var i :| 0 <= i < |trail| && trail[i] == s.evidence[k];
    }
  }

  lemma {:induction false} TrailHasAll(log: seq<Evidence>, delivery: DeliveryId)
    ensures forall k :: 0 <= k < |log| && log[k].delivery == delivery ==> log[k] in Trail(log, delivery)
  {
    if log != [] {
      TrailHasAll(log[..|log| - 1], delivery);
    }
  }

  // ------------------------------------------------------------------ backoff

  // The row still waits after attempt k, or the time it waits for has come.
  predicate Waits(s: Tables, d: DeliveryId, k: nat, next: Instant) {
    && d in s.inbox && s.inbox[d].attempts >= k
    && (s.clock >= next || (s.inbox[d].attempts == k && s.inbox[d].nextAttemptAt == next &&
                            s.inbox[d].state == Retrying))
  }

  lemma {:induction false} WaitsOn(s: Tables, actions: seq<Action>, d: DeliveryId, k: nat, next: Instant)
    requires Waits(s, d, k, next)
    ensures Waits(Run(s, actions), d, k, next)
  {
    if actions != [] {
      WaitsOn(s, actions[..|actions| - 1], d, k, next);
    }
  }

  /** Once a retry has been scheduled nobody claims the delivery again before its time. */
  lemma BackoffIsRespected(s: Tables, ticket: Ticket, next: Instant, after: seq<Action>)
    requires Step(s, Fail(ticket, next, false)) != s
    ensures var s' := Run(Step(s, Fail(ticket, next, false)), after);
            && ticket.delivery in s'.inbox
            && (s'.inbox[ticket.delivery].attempts != ticket.attempt ==> s'.clock >= next)
  {
    WaitsOn(Step(s, Fail(ticket, next, false)), after, ticket.delivery, ticket.attempt, next);
  }

  // ------------------------------------------------------------------ a claim misses nothing

  // Active consumer, waiting state, due.
  predicate Ready(s: Tables, d: DeliveryId) {
    && d in s.inbox && d.consumer in s.definitions && s.definitions[d.consumer].active
    && s.inbox[d].state in {Pending, Retrying} && s.inbox[d].nextAttemptAt <= s.clock
  }

  predicate NewTicket(s: Tables, owner: WorkerId, d: DeliveryId, t: Ticket) {
    Ready(s, d) && t == Ticket(d, s.inbox[d].attempts + 1, owner)
  }

  lemma {:induction false} OthersAreUntouched(s: Tables, claims: seq<Action>, owner: WorkerId,
                                              visible: seq<DeliveryId>, d: DeliveryId)
    requires Visits(claims, owner, visible) && d !in visible[..|claims|]
    ensures var s' := Run(s, claims);
            && s'.definitions == s.definitions && s'.clock == s.clock && (d in s'.inbox <==> d in s.inbox)
            && (d in s.inbox ==> s'.inbox[d] == s.inbox[d])
  {
    if claims != [] {
      var n := |claims| - 1;
      assert visible[..n + 1][n] == visible[n] && visible[..n] <= visible[..n + 1];
      OthersAreUntouched(s, claims[..n], owner, visible, d);
    }
  }

  lemma ReadyIsClaimable(s: Tables, s': Tables, owner: WorkerId, d: DeliveryId, t: Ticket)
    requires Inv(s) && s'.definitions == s.definitions && s'.clock == s.clock && (d in s'.inbox <==> d in s.inbox)
    requires d in s.inbox ==> s'.inbox[d] == s.inbox[d]
    ensures TicketFor(s', owner, d) == Some(t) <==> NewTicket(s, owner, d, t)
  {
    if d in s.inbox {
      assert Accounts(s.inbox[d], Trail(s.evidence, d));
    }
  }

  /** The tickets won are exactly those of the visited rows that were ready when the claim began,
      each for the row's next attempt. */
  lemma {:induction false} ClaimsMissNothing(s: Tables, claims: seq<Action>, owner: WorkerId, visible: seq<DeliveryId>,
                                             t: Ticket)
    requires Inv(s) && Visits(claims, owner, visible)
    requires forall i, j :: 0 <= i < j < |visible| ==> visible[i] != visible[j]
    ensures t in Won(s, claims) <==> exists i :: 0 <= i < |claims| && NewTicket(s, owner, visible[i], t)
  {
    hide Inv, Won, Run, NewTicket, TicketFor;
    if claims == [] {
      NothingWon(s);
    } else {
      var n := |claims| - 1;
      var earlier, d := claims[..n], visible[n];
      ClaimsMissNothing(s, earlier, owner, visible, t);
      assert d !in visible[..n];
      OthersAreUntouched(s, earlier, owner, visible, d);
      assert claims == earlier + [Action.Claim(owner, d)];
      WonNext(s, earlier, owner, d);
      ReadyIsClaimable(s, Run(s, earlier), owner, d, t);
    }
  }

  lemma NothingWon(s: Tables)
    ensures Won(s, []) == []
  {
  }
}
