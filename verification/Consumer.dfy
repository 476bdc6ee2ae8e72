/**
  The consumer inbox: one row per (consumer, event, replay), and the evidence of its attempts.
  Unlike the outbox, a row in `processing` is claimed by nobody until its ticket settles it, so
  the evidence accounts for every attempt.  Tickets may be presented at any time, any number of
  times and by anybody who knows them.
*/
module Consumer {
  import opened Wrappers

  type ConsumerKey = string
  type WorkerId = string
  type Instant = int // microseconds

  const SECOND: int := 1_000_000

  datatype State = Pending | Processing | Retrying | Completed | DeadLettered

  datatype Definition = Definition(handlerKey: string, active: bool, maximumAttempts: nat, leaseSeconds: nat)

  datatype DeliveryId = DeliveryId(consumer: ConsumerKey, event: string, replaySequence: nat)

  datatype InboxRow = InboxRow(state: State, attempts: nat, nextAttemptAt: Instant, leasedAt: Option<Instant>,
    leaseOwner: Option<WorkerId>)

  datatype Outcome = Delivered | Retry | DeadLetter

  datatype Evidence = Evidence(delivery: DeliveryId, attempt: nat, outcome: Outcome, worker: WorkerId)

  datatype Ticket = Ticket(delivery: DeliveryId, attempt: nat, owner: WorkerId)

  datatype Tables = Tables(
    inbox: map<DeliveryId, InboxRow>,
    definitions: map<ConsumerKey, Definition>,
    evidence: seq<Evidence>,
    clock: Instant)

  datatype Action =
    | Tick(to: Instant)
    | Enqueue(delivery: DeliveryId)
    | SetActive(consumer: ConsumerKey, active: bool)
    | Claim(owner: WorkerId, delivery: DeliveryId)
    | Complete(ticket: Ticket)
    | Fail(ticket: Ticket, nextAttempt: Instant, deadLetter: bool)

  function Fresh(now: Instant): InboxRow {
    InboxRow(Pending, 0, now, None, None)
  }

  predicate Claimable(s: Tables, delivery: DeliveryId) {
    && delivery in s.inbox
    && delivery.consumer in s.definitions
    && var row, consumer := s.inbox[delivery], s.definitions[delivery.consumer];
       && consumer.active
       && (row.state == Pending || row.state == Retrying)
       && row.nextAttemptAt <= s.clock
       && (row.leasedAt.None? || row.leasedAt.value < s.clock - consumer.leaseSeconds * SECOND)
  }

  // The WHERE clause of both acknowledgements.
  predicate Holds(s: Tables, ticket: Ticket) {
    && ticket.delivery in s.inbox
    && var row := s.inbox[ticket.delivery];
       row.leaseOwner == Some(ticket.owner) && row.state == Processing && row.attempts == ticket.attempt
  }

  function Settle(s: Tables, ticket: Ticket, row: InboxRow, outcome: Outcome): Tables {
    s.(inbox := s.inbox[ticket.delivery := row.(leasedAt := None, leaseOwner := None)],
       evidence := s.evidence + [Evidence(ticket.delivery, ticket.attempt, outcome, ticket.owner)])
  }

  function Step(s: Tables, action: Action): Tables {
    match action
    case Tick(to) => s.(clock := if to > s.clock then to else s.clock)
    case Enqueue(delivery) =>
      if delivery in s.inbox || delivery.consumer !in s.definitions then s
      else s.(inbox := s.inbox[delivery := Fresh(s.clock)])
    case SetActive(consumer, active) =>
      if consumer in s.definitions then
        s.(definitions := s.definitions[consumer := s.definitions[consumer].(active := active)])
      else s
    case Claim(owner, delivery) =>
      if Claimable(s, delivery) then
        var row := s.inbox[delivery];
        s.(inbox := s.inbox[delivery := row.(state := Processing, attempts := row.attempts + 1,
                                             leasedAt := Some(s.clock), leaseOwner := Some(owner))])
      else s
    case Complete(ticket) =>
      if Holds(s, ticket) then Settle(s, ticket, s.inbox[ticket.delivery].(state := Completed), Delivered) else s
    case Fail(ticket, nextAttempt, deadLetter) =>
      if Holds(s, ticket) then
        var row := s.inbox[ticket.delivery].(nextAttemptAt := nextAttempt);
        if deadLetter then Settle(s, ticket, row.(state := DeadLettered), DeadLetter)
        else Settle(s, ticket, row.(state := Retrying), Retry)
      else s
  }

  function Run(s: Tables, actions: seq<Action>): Tables {
    if actions == [] then s else Step(Run(s, actions[..|actions| - 1]), actions[|actions| - 1])
  }

  lemma RunStep(s: Tables, actions: seq<Action>, action: Action)
    ensures Run(s, actions + [action]) == Step(Run(s, actions), action)
  {
    assert (actions + [action])[..|actions|] == actions;
  }

  lemma {:induction false} RunAppend(s: Tables, before: seq<Action>, after: seq<Action>)
    ensures Run(s, before + after) == Run(Run(s, before), after)
  {
    if after == [] {
      assert before + after == before;
    } else {
      var last := |after| - 1;
      assert before + after == (before + after[..last]) + [after[last]];
      RunAppend(s, before, after[..last]);
      RunStep(s, before + after[..last], after[last]);
    }
  }

  // ------------------------------------------------------------------ accounting

  function Trail(log: seq<Evidence>, delivery: DeliveryId): seq<Evidence> {
    if log == [] then []
    else
      var last := log[|log| - 1];
      Trail(log[..|log| - 1], delivery) + if last.delivery == delivery then [last] else []
  }

  lemma TrailAppend(log: seq<Evidence>, e: Evidence, delivery: DeliveryId)
    ensures Trail(log + [e], delivery) == if e.delivery == delivery then Trail(log, delivery) +
            [e] else Trail(log, delivery)
  {
    assert (log + [e])[..|log|] == log;
  }

  function SettledAttempts(row: InboxRow): int {
    if row.state == Processing then row.attempts - 1 else row.attempts
  }

  // The outcome of the last evidence row that each state calls for.
  function FinalOutcome(state: State): Outcome {
    match state
    case Completed => Delivered
    case DeadLettered => DeadLetter
    case _ => Retry
  }

  /** The evidence rows are numbered 1, 2, ... up to the settled attempts; every one but the
      last is a retry and the last is what the row's state says. */
  predicate Accounts(row: InboxRow, trail: seq<Evidence>) {
    && |trail| == SettledAttempts(row)
    && (forall i :: 0 <= i < |trail| ==> trail[i].attempt == i + 1)
    && (forall i :: 0 <= i < |trail| ==>
       trail[i].outcome == if i == |trail| - 1 then FinalOutcome(row.state) else Retry)
    && (row.state == Pending <==> row.attempts == 0)
    && (row.state == Processing <==> row.leaseOwner.Some?)
    && (row.state == Processing <==> row.leasedAt.Some?)
  }

  ghost predicate Inv(s: Tables) {
    forall delivery: DeliveryId ::
      if delivery in s.inbox then Accounts(s.inbox[delivery], Trail(s.evidence, delivery))
      else Trail(s.evidence, delivery) == []
  }

  lemma SettleKeepsInv(s: Tables, ticket: Ticket, row: InboxRow, outcome: Outcome)
    requires Inv(s) && Holds(s, ticket)
    requires row.attempts == s.inbox[ticket.delivery].attempts
    requires row.state in {Completed, DeadLettered, Retrying} && outcome == FinalOutcome(row.state)
    ensures Inv(Settle(s, ticket, row, outcome))
  {
    hide Accounts, Trail;
    var s' := Settle(s, ticket, row, outcome);
    var e := Evidence(ticket.delivery, ticket.attempt, outcome, ticket.owner);
    forall delivery: DeliveryId
      ensures if delivery in s'.inbox then Accounts(s'.inbox[delivery], Trail(s'.evidence, delivery))
              else Trail(s'.evidence, delivery) == []
    {
      TrailAppend(s.evidence, e, delivery);
      if delivery == ticket.delivery {
        SettleAccounts(s.inbox[delivery], s'.inbox[delivery], Trail(s.evidence, delivery), e);
      }
    }
  }

  lemma SettleAccounts(row: InboxRow, settled: InboxRow, trail: seq<Evidence>, e: Evidence)
    requires Accounts(row, trail) && row.state == Processing
    requires settled.attempts == row.attempts == e.attempt && settled.leasedAt.None? && settled.leaseOwner.None?
    requires settled.state in {Completed, DeadLettered, Retrying} && e.outcome == FinalOutcome(settled.state)
    ensures Accounts(settled, trail + [e])
  {
  }

  lemma StepKeepsInv(s: Tables, action: Action)
    requires Inv(s)
    ensures Inv(Step(s, action))
  {
    match action {
      case Complete(ticket) =>
        if Holds(s, ticket) {
          SettleKeepsInv(s, ticket, s.inbox[ticket.delivery].(state := Completed), Delivered);
        }
      case Fail(ticket, nextAttempt, deadLetter) =>
        if Holds(s, ticket) {
          var row := s.inbox[ticket.delivery].(nextAttemptAt := nextAttempt);
          if deadLetter {
            SettleKeepsInv(s, ticket, row.(state := DeadLettered), DeadLetter);
          } else {
            SettleKeepsInv(s, ticket, row.(state := Retrying), Retry);
          }
        }
      case Claim(owner, delivery) =>
        if Claimable(s, delivery) {
          assert Accounts(s.inbox[delivery], Trail(s.evidence, delivery));
          assert Accounts(Step(s, action).inbox[delivery], Trail(s.evidence, delivery));
        }
      case _ =>
    }
  }

  function Empty(definitions: map<ConsumerKey, Definition>, clock: Instant): Tables {
    Tables(map[], definitions, [], clock)
  }

  lemma {:induction false} ReachableInv(definitions: map<ConsumerKey, Definition>, clock: Instant, actions: seq<Action>)
    ensures Inv(Run(Empty(definitions, clock), actions))
  {
    if actions != [] {
      ReachableInv(definitions, clock, actions[..|actions| - 1]);
      StepKeepsInv(Run(Empty(definitions, clock), actions[..|actions| - 1]), actions[|actions| - 1]);
    }
  }

  /** In every reachable state the evidence of a delivery accounts for its attempts. */
  lemma EvidenceAccountsForAttempts(definitions: map<ConsumerKey, Definition>, clock: Instant, actions: seq<Action>,
                                    delivery: DeliveryId)
    requires delivery in Run(Empty(definitions, clock), actions).inbox
    ensures var s := Run(Empty(definitions, clock), actions);
            Accounts(s.inbox[delivery], Trail(s.evidence, delivery))
  {
    ReachableInv(definitions, clock, actions);
  }

  /** Rows wait without a lease, so the claim's lease test never decides anything. */
  lemma LeaseTestIsRedundant(definitions: map<ConsumerKey, Definition>, clock: Instant, actions: seq<Action>,
                             delivery: DeliveryId)
    ensures var s := Run(Empty(definitions, clock), actions);
            Claimable(s, delivery) <==>
              && delivery in s.inbox && delivery.consumer in s.definitions && s.definitions[delivery.consumer].active
              && s.inbox[delivery].state in {Pending, Retrying} && s.inbox[delivery].nextAttemptAt <= s.clock
  {
    ReachableInv(definitions, clock, actions);
    var s := Run(Empty(definitions, clock), actions);
    if delivery in s.inbox {
      assert Accounts(s.inbox[delivery], Trail(s.evidence, delivery));
    }
  }

  // ------------------------------------------------------------------ finality and fencing

  // The action presents the ticket under which a row in `processing` was claimed.
  predicate Presents(action: Action, delivery: DeliveryId, row: InboxRow) {
    && (action.Complete? || action.Fail?)
    && action.ticket.delivery == delivery
    && action.ticket.attempt == row.attempts
    && row.leaseOwner == Some(action.ticket.owner)
  }

  // A row that moves only when its own ticket is presented, and is not presented with it.
  predicate Parked(s: Tables, delivery: DeliveryId, actions: seq<Action>) {
    && delivery in s.inbox
    && (s.inbox[delivery].state in {Completed, DeadLettered} ||
        (s.inbox[delivery].state == Processing &&
         forall i :: 0 <= i < |actions| ==> !Presents(actions[i], delivery, s.inbox[delivery])))
  }

  lemma ParkedStep(s: Tables, action: Action, delivery: DeliveryId)
    requires delivery in s.inbox
    requires s.inbox[delivery].state in {Completed, DeadLettered} ||
             (s.inbox[delivery].state == Processing && !Presents(action, delivery, s.inbox[delivery]))
    ensures var s' := Step(s, action);
            && delivery in s'.inbox && s'.inbox[delivery] == s.inbox[delivery]
            && Trail(s'.evidence, delivery) == Trail(s.evidence, delivery)
  {
    if (action.Complete? || action.Fail?) && Holds(s, action.ticket) {
      var ticket := action.ticket;
      assert ticket.delivery != delivery;
      var outcome := if action.Complete? then Delivered else if action.deadLetter then DeadLetter else Retry;
      TrailAppend(s.evidence, Evidence(ticket.delivery, ticket.attempt, outcome, ticket.owner), delivery);
    }
  }

  /** `completed` and `dead-letter` are absorbing, and a `processing` row is never re-claimed:
      whatever everybody else does, it stays as it is until its own ticket is presented. */
  lemma {:induction false} ParkedRowsStay(s: Tables, actions: seq<Action>, delivery: DeliveryId)
    requires Parked(s, delivery, actions)
    ensures var s' := Run(s, actions);
            && delivery in s'.inbox && s'.inbox[delivery] == s.inbox[delivery]
            && Trail(s'.evidence, delivery) == Trail(s.evidence, delivery)
  {
    if actions != [] {
      ParkedRowsStay(s, actions[..|actions| - 1], delivery);
      ParkedStep(Run(s, actions[..|actions| - 1]), actions[|actions| - 1], delivery);
    }
  }

  predicate Spent(s: Tables, ticket: Ticket) {
    && ticket.delivery in s.inbox
    && (s.inbox[ticket.delivery].attempts > ticket.attempt ||
        (s.inbox[ticket.delivery].attempts == ticket.attempt && s.inbox[ticket.delivery].state != Processing))
  }

  /** A settled ticket settles nothing again, on any continuation. */
  lemma {:induction false} SpentTicketsAreDead(s: Tables, actions: seq<Action>, ticket: Ticket)
    requires Spent(s, ticket)
    ensures var s' := Run(s, actions);
            Spent(s', ticket) && Step(s', Complete(ticket)) == s' &&
            forall next: Instant, dead: bool :: Step(s', Fail(ticket, next, dead)) == s'
  {
    if actions != [] {
      SpentTicketsAreDead(s, actions[..|actions| - 1], ticket);
    }
  }

  // ------------------------------------------------------------------ the attempt bound

  // The runtime dead-letters exactly when the attempt has reached the consumer's maximum.
  predicate Governed(definitions: map<ConsumerKey, Definition>, actions: seq<Action>) {
    forall i :: 0 <= i < |actions| && actions[i].Fail? && actions[i].ticket.delivery.consumer in definitions ==>
      var ticket := actions[i].ticket;
      (actions[i].deadLetter <==> ticket.attempt >= definitions[ticket.delivery.consumer].maximumAttempts)
  }

  predicate WithinMaximum(definitions: map<ConsumerKey, Definition>, s: Tables) {
    && s.definitions.Keys == definitions.Keys
    && (forall c :: c in definitions ==> s.definitions[c].maximumAttempts == definitions[c].maximumAttempts)
    && forall d :: d in s.inbox ==>
         && d.consumer in definitions
         && s.inbox[d].attempts <= definitions[d.consumer].maximumAttempts
         && (s.inbox[d].state in {Pending, Retrying} ==> s.inbox[d].attempts < definitions[d.consumer].maximumAttempts)
  }

  lemma GovernedStep(definitions: map<ConsumerKey, Definition>, s: Tables, action: Action)
    requires forall c :: c in definitions ==> definitions[c].maximumAttempts >= 1
    requires WithinMaximum(definitions, s) && Governed(definitions, [action])
    ensures WithinMaximum(definitions, Step(s, action))
  {
    assert [action][0] == action;
  }

  /** No delivery is attempted more often than its consumer allows. */
  lemma {:induction false} AttemptsNeverExceedMaximum(definitions: map<ConsumerKey, Definition>, clock: Instant,
                                                      actions: seq<Action>)
    requires forall c :: c in definitions ==> definitions[c].maximumAttempts >= 1
    requires Governed(definitions, actions)
    ensures WithinMaximum(definitions, Run(Empty(definitions, clock), actions))
  {
    if actions != [] {
      AttemptsNeverExceedMaximum(definitions, clock, actions[..|actions| - 1]);
      GovernedStep(definitions, Run(Empty(definitions, clock), actions[..|actions| - 1]), actions[|actions| - 1]);
    }
  }
}
