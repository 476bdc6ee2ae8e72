// The repository over the inbox and the runtime's batch loop.
module ConsumerRuntime {
  import opened Flags
  import opened Wrappers
  import opened Consumer
  import opened Replies
  import Retry

  // What a claim of the row returns.
  function TicketFor(s: Tables, owner: WorkerId, delivery: DeliveryId): Option<Ticket> {
    if Claimable(s, delivery) then Some(Ticket(delivery, s.inbox[delivery].attempts + 1, owner)) else None
  }

  // The claims try the first visible rows in order.
  predicate Visits(claims: seq<Action>, owner: WorkerId, visible: seq<DeliveryId>) {
    |claims| <= |visible| && forall i :: 0 <= i < |claims| ==> claims[i] == Action.Claim(owner, visible[i])
  }

  // The tickets that a run of claims wins.
  function Won(s: Tables, claims: seq<Action>): seq<Ticket> {
    if claims == [] then []
    else
      var earlier, last := claims[..|claims| - 1], claims[|claims| - 1];
      var ticket := if last.Claim? then TicketFor(Run(s, earlier), last.owner, last.delivery) else None;
      Won(s, earlier) + if ticket.Some? then [ticket.value] else []
  }

  lemma WonNext(s: Tables, claims: seq<Action>, owner: WorkerId, delivery: DeliveryId)
    ensures var ticket := TicketFor(Run(s, claims), owner, delivery);
            Won(s, claims + [Action.Claim(owner, delivery)]) == Won(s, claims) +
                if ticket.Some? then [ticket.value] else []
    ensures Run(s, claims + [Action.Claim(owner, delivery)]) == Step(Run(s, claims), Action.Claim(owner, delivery))
  {
    assert (claims + [Action.Claim(owner, delivery)])[..|claims|] == claims;
  }

  // Every ticket won still holds its row when the claims are over.
  lemma {:induction false} WonTicketsHold(s: Tables, claims: seq<Action>, owner: WorkerId, visible: seq<DeliveryId>)
    requires Visits(claims, owner, visible)
    ensures forall t :: t in Won(s, claims) ==>
            t.owner == owner && Holds(Run(s, claims), t) && t.delivery.consumer in s.definitions
    ensures Run(s, claims).definitions == s.definitions
  {
    if claims != [] {
      WonTicketsHold(s, claims[..|claims| - 1], owner, visible);
    }
  }

  class Repository {
    var inbox: map<DeliveryId, InboxRow>
    var definitions: map<ConsumerKey, Definition>
    var evidence: seq<Evidence>
    var clock: Instant

    ghost function Model(): Tables
      reads this
    {
      Tables(inbox, definitions, evidence, clock)
    }

    constructor (definitions: map<ConsumerKey, Definition>, now: Instant)
      ensures Model() == Empty(definitions, now)
    {
      this.inbox, this.definitions, this.evidence, this.clock := map[], definitions, [], now;
    }

    // The UPDATE of the claim, on one candidate row.
    method ClaimRow(owner: WorkerId, delivery: DeliveryId) returns (ticket: Option<Ticket>)
      modifies this
      ensures Model() == Step(old(Model()), Action.Claim(owner, delivery))
      ensures ticket == TicketFor(old(Model()), owner, delivery)
    {
      ticket := None;
      if delivery in inbox && delivery.consumer in definitions {
        var row, consumer := inbox[delivery], definitions[delivery.consumer];
        if consumer.active && (row.state == Pending || row.state == Retrying) && row.nextAttemptAt <= clock
           && (row.leasedAt.None? || row.leasedAt.value < clock - consumer.leaseSeconds * SECOND) {
          inbox := inbox[delivery := row.(state := Processing, attempts := row.attempts + 1,
                                          leasedAt := Some(clock), leaseOwner := Some(owner))];
          ticket := Some(Ticket(delivery, row.attempts + 1, owner));
        }
      }
    }

    /** `visible` lists the rows the query can lock, in its ORDER BY order: each is tried once,
        until the batch is full, and the tickets are those of the rows that were claimable. */
    method Claim(owner: WorkerId, visible: seq<DeliveryId>, batchSize: nat)
      returns (claimed: seq<Ticket>, ghost claims: seq<Action>)
      modifies this
      ensures Visits(claims, owner, visible) && claimed == Won(old(Model()), claims)
      ensures |claimed| <= batchSize && (|claims| == |visible| || |claimed| == batchSize)
      ensures Model() == Run(old(Model()), claims)
    {
      claimed, claims := [], [];
      for i := 0 to |visible|
        invariant |claims| == i && Visits(claims, owner, visible) && claimed == Won(old(Model()), claims)
        invariant |claimed| <= batchSize
        invariant Model() == Run(old(Model()), claims)
      {
        if |claimed| == batchSize {
          break;
        }
        WonNext(old(Model()), claims, owner, visible[i]);
        var ticket := ClaimRow(owner, visible[i]);
        claims := claims + [Action.Claim(owner, visible[i])];
        if ticket.Some? {
          claimed := claimed + [ticket.value];
        }
      }
    }

    method Complete(ticket: Ticket) returns (updated: bool)
      modifies this
      ensures updated == Holds(old(Model()), ticket)
      ensures Model() == Step(old(Model()), Action.Complete(ticket))
    {
      updated := false;
      if ticket.delivery in inbox {
        var row := inbox[ticket.delivery];
        if row.leaseOwner == Some(ticket.owner) && row.state == Processing && row.attempts == ticket.attempt {
          inbox := inbox[ticket.delivery := row.(state := Completed, leasedAt := None, leaseOwner := None)];
          evidence := evidence + [Evidence(ticket.delivery, ticket.attempt, Delivered, ticket.owner)];
          updated := true;
        }
      }
    }

    method Fail(ticket: Ticket, nextAttempt: Instant, deadLetter: bool) returns (updated: bool)
      modifies this
      ensures updated == Holds(old(Model()), ticket)
      ensures Model() == Step(old(Model()), Action.Fail(ticket, nextAttempt, deadLetter))
    {
      updated := false;
      if ticket.delivery in inbox {
        var row := inbox[ticket.delivery];
        if row.leaseOwner == Some(ticket.owner) && row.state == Processing && row.attempts == ticket.attempt {
          inbox := inbox[ticket.delivery := row.(state := if deadLetter then DeadLettered else Retrying,
                                                 nextAttemptAt := nextAttempt, leasedAt := None, leaseOwner := None)];
          evidence := evidence + [Evidence(ticket.delivery, ticket.attempt, if deadLetter then DeadLetter else Retry,
              ticket.owner)];
          updated := true;
        }
      }
    }

    // One step of anybody else.
    method Perform(action: Action)
      modifies this
      ensures Model() == Step(old(Model()), action)
    {
      match action {
        case Tick(to) => clock := if to > clock then to else clock;
        case Enqueue(delivery) =>
          if delivery !in inbox && delivery.consumer in definitions {
            inbox := inbox[delivery := Fresh(clock)];
          }
        case SetActive(consumer, active) =>
          if consumer in definitions {
            definitions := definitions[consumer := definitions[consumer].(active := active)];
          }
        case Claim(owner, delivery) => var _ := ClaimRow(owner, delivery);
        case Complete(ticket) => var _ := Complete(ticket);
        case Fail(ticket, nextAttempt, deadLetter) => var _ := Fail(ticket, nextAttempt, deadLetter);
      }
    }

    // What the rest of the system does while a worker is between two of its own steps.
    method Meanwhile(actions: seq<Action>)
      modifies this
      ensures Model() == Run(old(Model()), actions)
    {
      for i := 0 to |actions|
        invariant Model() == Run(old(Model()), actions[..i])
      {
        assert actions[..i + 1] == actions[..i] + [actions[i]];
        RunStep(old(Model()), actions[..i], actions[i]);
        Perform(actions[i]);
      }
      assert actions[..|actions|] == actions;
    }
  }

  lemma {:induction false} EvidenceIsKept(s: Tables, actions: seq<Action>)
    ensures s.evidence <= Run(s, actions).evidence
  {
    if actions != [] {
      EvidenceIsKept(s, actions[..|actions| - 1]);
    }
  }

  // What holds of an issued ticket at any later time: it still holds its row, or it is spent.
  predicate Issued(s: Tables, ticket: Ticket) {
    Holds(s, ticket) || Spent(s, ticket)
  }

  lemma {:induction false} IssuedStays(s: Tables, actions: seq<Action>, ticket: Ticket)
    requires Issued(s, ticket)
    ensures Issued(Run(s, actions), ticket)
    ensures Spent(s, ticket) ==> Spent(Run(s, actions), ticket)
  {
    if actions != [] {
      IssuedStays(s, actions[..|actions| - 1], ticket);
    }
  }

  lemma {:induction false} DefinitionsAreKept(s: Tables, actions: seq<Action>)
    ensures s.definitions.Keys == Run(s, actions).definitions.Keys
    ensures forall c :: c in s.definitions ==>
            Run(s, actions).definitions[c].maximumAttempts == s.definitions[c].maximumAttempts
  {
    if actions != [] {
      DefinitionsAreKept(s, actions[..|actions| - 1]);
    }
  }

  function DeliveredRow(ticket: Ticket): Evidence {
    Evidence(ticket.delivery, ticket.attempt, Delivered, ticket.owner)
  }

  lemma RunNothing(s: Tables)
    ensures Run(s, []) == s
  {
  }

  // What a runtime does with deliveries: its handlers, true when the handler returns and false
  // when it throws, and its backoff.
  datatype Policy = Policy(handlers: map<string, Ticket -> bool>, retryBaseSeconds: nat, retryMaximumSeconds: nat)

  // What the handler for a key does with a delivery: None when nobody registered one.
  function Verdict(policy: Policy, handlerKey: string, ticket: Ticket): Option<bool> {
    if handlerKey in policy.handlers then Some(policy.handlers[handlerKey](ticket)) else None
  }

  function Failure(policy: Policy, ticket: Ticket, maximumAttempts: nat, now: Instant,
                   digest: DeliveryId -> nat): Action {
    var delay := Retry.DelaySeconds(ticket.attempt, policy.retryBaseSeconds, policy.retryMaximumSeconds,
        digest(ticket.delivery));
    Action.Fail(ticket, Retry.NextAttemptAt(now, delay), ticket.attempt >= maximumAttempts)
  }

  // The run of the try block, given what the handler does.
  function Attempted(verdict: Option<bool>, ticket: Ticket, duringHandler: seq<Action>, reply: Reply): seq<Action> {
    if verdict.None? then []
    else if !verdict.value || reply == LostBeforeCommit then duringHandler
    else duringHandler + [Action.Complete(ticket)]
  }

  // The run of the catch block.
  function Recovered(failure: Action, beforeFailure: seq<Action>, reply: Reply): seq<Action> {
    if reply == LostBeforeCommit then beforeFailure else beforeFailure + [failure]
  }

  /** What one turn of the loop must do from tables s: whether the delivery counts as completed,
      and the run of the turn. `others` come before the completion and before the failure. */
  function Turn(policy: Policy, s: Tables, ticket: Ticket, duringHandler: seq<Action>, beforeFailure: seq<Action>,
                reply: Reply, failureReply: Reply, digest: DeliveryId -> nat): (bool, seq<Action>)
    requires ticket.delivery.consumer in s.definitions
  {
    var definition := s.definitions[ticket.delivery.consumer];
    var verdict := Verdict(policy, definition.handlerKey, ticket);
    var attempted := Attempted(verdict, ticket, duringHandler, reply);
    if verdict == Some(true) && reply == Answered && Holds(Run(s, duringHandler), ticket) then (true, attempted)
    else
      var now := Run(s, attempted + beforeFailure).clock;
      var failure := Failure(policy, ticket, definition.maximumAttempts, now, digest);
      (false, attempted + Recovered(failure, beforeFailure, failureReply))
  }

  // What everybody else does during a round, turn by turn, and which replies to completions and
  // to failures are heard.
  datatype World = World(others: nat -> seq<Action>, replies: nat -> Reply, failureReplies: nat -> Reply,
                         digest: DeliveryId -> nat)

  // The turns for the tickets, one after the other, and which of them count as completed.
  function Turns(policy: Policy, s: Tables, tickets: seq<Ticket>, world: World): (seq<bool>, seq<Action>) {
    if tickets == [] then ([], [])
    else
      var n := |tickets| - 1;
      var (flags, trace) := Turns(policy, s, tickets[..n], world);
      var (done, turn) := NextTurn(policy, Run(s, trace), tickets[n], n, world);
      (flags + [done], trace + turn)
  }

  function NextTurn(policy: Policy, s: Tables, ticket: Ticket, n: nat, world: World): (bool, seq<Action>) {
    if ticket.delivery.consumer !in s.definitions then (false, [])
    else Turn(policy, s, ticket, world.others(2 * n), world.others(2 * n + 1), world.replies(n),
        world.failureReplies(n), world.digest)
  }

  lemma NextTurnIs(policy: Policy, s: Tables, ticket: Ticket, n: nat, world: World)
    requires ticket.delivery.consumer in s.definitions
    ensures NextTurn(policy, s, ticket, n, world) ==
            Turn(policy, s, ticket, world.others(2 * n), world.others(2 * n + 1), world.replies(n),
                 world.failureReplies(n), world.digest)
  {
  }

  lemma TurnsNext(policy: Policy, s: Tables, tickets: seq<Ticket>, ticket: Ticket, world: World)
    ensures var (flags, trace) := Turns(policy, s, tickets, world);
            var (done, turn) := NextTurn(policy, Run(s, trace), ticket, |tickets|, world);
            Turns(policy, s, tickets + [ticket], world) == (flags + [done], trace + turn)
  {
    hide Step, Run, NextTurn;
    assert (tickets + [ticket])[..|tickets|] == tickets;
  }

  // Whether the consumer's handler is registered and returns.
  predicate Returns(policy: Policy, s: Tables, ticket: Ticket)
    requires ticket.delivery.consumer in s.definitions
  {
    var key := s.definitions[ticket.delivery.consumer].handlerKey;
    key in policy.handlers && policy.handlers[key](ticket)
  }

  // A failure of the ticket at the time the backoff asks for, dead exactly at the maximum.
  ghost predicate FailsRightly(policy: Policy, s: Tables, ticket: Ticket, now: Instant, action: Action)
    requires ticket.delivery.consumer in s.definitions
  {
    && action.Fail? && action.ticket == ticket
    && (action.deadLetter <==> ticket.attempt >= s.definitions[ticket.delivery.consumer].maximumAttempts)
    && Retry.IsBackedOff(now, action.nextAttempt, ticket.attempt, policy.retryBaseSeconds, policy.retryMaximumSeconds)
  }

  // A turn that only fails the ticket, among what others do: those during the handler, if there is
  // one, and those before the failure.
  ghost predicate OnlyFails(policy: Policy, s: Tables, ticket: Ticket, n: nat, world: World, turn: seq<Action>)
    requires ticket.delivery.consumer in s.definitions
  {
    var registered := s.definitions[ticket.delivery.consumer].handlerKey in policy.handlers;
    var others := (if registered then world.others(2 * n) else []) + world.others(2 * n + 1);
    if world.failureReplies(n) == LostBeforeCommit then turn == others
    else
      && |turn| == |others| + 1 && turn[..|others|] == others
      && FailsRightly(policy, s, ticket, Run(s, others).clock, turn[|others|])
  }

  lemma TurnFollowsHandler(policy: Policy, s: Tables, ticket: Ticket, n: nat, world: World)
    requires ticket.delivery.consumer in s.definitions
    requires world.digest(ticket.delivery) <= Retry.DIGEST_MAXIMUM
    ensures var (done, turn) := NextTurn(policy, s, ticket, n, world);
            && (done ==> Returns(policy, s, ticket))
            && (world.replies(n) == Answered && Holds(Run(s, world.others(2 * n)), ticket) ==>
                  (done <==> Returns(policy, s, ticket)))
            && (!Returns(policy, s, ticket) ==> OnlyFails(policy, s, ticket, n, world, turn))
  {
    hide Run, Holds, Retry.DelaySeconds, Retry.NextAttemptAt;
    var definition := s.definitions[ticket.delivery.consumer];
    var during, beforeFailure := world.others(2 * n), world.others(2 * n + 1);
    var attempted := Attempted(Verdict(policy, definition.handlerKey, ticket), ticket, during, world.replies(n));
    var now := Run(s, attempted + beforeFailure).clock;
    Retry.NextAttemptIsBackedOff(now, ticket.attempt, policy.retryBaseSeconds, policy.retryMaximumSeconds,
        world.digest(ticket.delivery));
    var failure := Failure(policy, ticket, definition.maximumAttempts, now, world.digest);
    assert attempted + (beforeFailure + [failure]) == (attempted + beforeFailure) + [failure];
  }

  // What a turn from these tables to that flag says about the handler.
  ghost predicate Decided(policy: Policy, s: Tables, ticket: Ticket, n: nat, world: World, done: bool,
                          turn: seq<Action>)
  {
    && ticket.delivery.consumer in s.definitions
    && (done ==> Returns(policy, s, ticket))
    && (world.replies(n) == Answered && Holds(Run(s, world.others(2 * n)), ticket) ==>
          (done <==> Returns(policy, s, ticket)))
    && (!Returns(policy, s, ticket) ==> OnlyFails(policy, s, ticket, n, world, turn))
  }

  /** Turn by turn: a delivery counts as completed only if its consumer's handler is registered and
      returned; if the reply is heard and the ticket still holds after the handler, exactly then.
      When the handler threw or is missing, the turn does nothing but fail the ticket, at the
      backoff's time and as a dead letter exactly at the maximum. */
  lemma {:induction false} HandlersDecide(policy: Policy, s: Tables, tickets: seq<Ticket>, world: World, i: nat)
    requires i < |tickets| && tickets[i].delivery.consumer in s.definitions
    requires world.digest(tickets[i].delivery) <= Retry.DIGEST_MAXIMUM
    ensures var (flags, trace) := Turns(policy, s, tickets, world);
            var before := Turns(policy, s, tickets[..i], world).1;
            var after := Turns(policy, s, tickets[..i + 1], world).1;
            && |flags| == |tickets| && before <= after <= trace
            && Decided(policy, Run(s, before), tickets[i], i, world, flags[i], after[|before|..])
  {
    hide *;
    var n := |tickets| - 1;
    var shorter, last := tickets[..n], tickets[n];
    assert tickets == shorter + [last] && tickets[..n + 1] == tickets;
    TurnsNext(policy, s, shorter, last, world);
    OneFlagEach(policy, s, shorter, world);
    if i < n {
      HandlersDecide(policy, s, shorter, world, i);
      assert shorter[..i] == tickets[..i] && shorter[..i + 1] == tickets[..i + 1];
    } else {
      var before := Turns(policy, s, shorter, world).1;
      DefinitionsAreKept(s, before);
      IsDecided(policy, Run(s, before), last, n, world);
    }
  }

  lemma IsDecided(policy: Policy, s: Tables, ticket: Ticket, n: nat, world: World)
    requires ticket.delivery.consumer in s.definitions
    requires world.digest(ticket.delivery) <= Retry.DIGEST_MAXIMUM
    ensures var (done, turn) := NextTurn(policy, s, ticket, n, world);
            Decided(policy, s, ticket, n, world, done, turn)
  {
    hide Run, Holds, OnlyFails, Returns, NextTurn;
    TurnFollowsHandler(policy, s, ticket, n, world);
  }

  lemma {:induction false} OneFlagEach(policy: Policy, s: Tables, tickets: seq<Ticket>, world: World)
    ensures |Turns(policy, s, tickets, world).0| == |tickets|
  {
    if tickets != [] {
      OneFlagEach(policy, s, tickets[..|tickets| - 1], world);
    }
  }

  // The loop has taken the turns of the served tickets, from tables s to tables now.
  predicate Serving(policy: Policy, s: Tables, now: Tables, served: seq<Ticket>, world: World, flags: seq<bool>,
                    trace: seq<Action>, completed: nat)
  {
    && (flags, trace) == Turns(policy, s, served, world)
    && now == Run(s, trace)
    && |flags| == |served| && completed == CountTrue(flags)
  }

  lemma ServingKeepsDefinitions(policy: Policy, s: Tables, now: Tables, served: seq<Ticket>, world: World,
                                flags: seq<bool>, trace: seq<Action>, completed: nat)
    requires Serving(policy, s, now, served, world, flags, trace, completed)
    ensures s.definitions.Keys == now.definitions.Keys
  {
    DefinitionsAreKept(s, trace);
  }

  lemma ServeNext(policy: Policy, s: Tables, now: Tables, deliveries: seq<Ticket>, i: nat, world: World,
                  flags: seq<bool>, trace: seq<Action>, completed: nat, done: bool, turn: seq<Action>)
    requires i < |deliveries| && Serving(policy, s, now, deliveries[..i], world, flags, trace, completed)
    requires deliveries[i].delivery.consumer in now.definitions
    requires (done, turn) ==
             Turn(policy, now, deliveries[i], world.others(2 * i), world.others(2 * i + 1), world.replies(i),
                 world.failureReplies(i), world.digest)
    ensures Serving(policy, s, Run(now, turn), deliveries[..i + 1], world, flags + [done], trace + turn,
                    if done then completed + 1 else completed)
  {
    hide *;
    NextTurnIs(policy, now, deliveries[i], i, world);
    assert deliveries[..i + 1] == deliveries[..i] + [deliveries[i]];
    Served(policy, s, now, deliveries[..i], world, flags, trace, completed);
    TurnsNext(policy, s, deliveries[..i], deliveries[i], world);
    RunAppend(s, trace, turn);
    CountNext(flags, done);
    Serves(policy, s, Run(now, turn), deliveries[..i + 1], world, flags + [done], trace + turn,
        if done then completed + 1 else completed);
  }

  lemma Serves(policy: Policy, s: Tables, now: Tables, served: seq<Ticket>, world: World, flags: seq<bool>,
               trace: seq<Action>, completed: nat)
    requires (flags, trace) == Turns(policy, s, served, world) && now == Run(s, trace)
    requires |flags| == |served| && completed == CountTrue(flags)
    ensures Serving(policy, s, now, served, world, flags, trace, completed)
  {
  }

  lemma Served(policy: Policy, s: Tables, now: Tables, served: seq<Ticket>, world: World, flags: seq<bool>,
               trace: seq<Action>, completed: nat)
    requires Serving(policy, s, now, served, world, flags, trace, completed)
    ensures (flags, trace) == Turns(policy, s, served, world) && now == Run(s, trace)
    ensures |flags| == |served| && completed == CountTrue(flags)
  {
  }

  // ------------------------------------------------------------------ what a round achieves

  // Nothing settles a ticket whose failure update is lost on the way.
  predicate Settles(done: bool, world: World, n: nat) {
    done || world.failureReplies(n) != LostBeforeCommit
  }

  lemma TurnSpends(policy: Policy, s: Tables, ticket: Ticket, n: nat, world: World)
    requires ticket.delivery.consumer in s.definitions && Issued(s, ticket)
    ensures var (done, turn) := NextTurn(policy, s, ticket, n, world);
            var s' := Run(s, turn);
            && Issued(s', ticket) && (Settles(done, world, n) ==> Spent(s', ticket))
            && (done ==> DeliveredRow(ticket) in s'.evidence)
  {
    var during, beforeFailure := world.others(2 * n), world.others(2 * n + 1);
    var definition := s.definitions[ticket.delivery.consumer];
    var attempted := Attempted(Verdict(policy, definition.handlerKey, ticket), ticket, during, world.replies(n));
    var (done, turn) := NextTurn(policy, s, ticket, n, world);
    hide Run;
    IssuedStays(s, turn, ticket);
    if done {
      RunStep(s, during, Action.Complete(ticket));
    } else if Settles(done, world, n) {
      hide Holds;
      assert turn == attempted + beforeFailure + [turn[|turn| - 1]];
      IssuedStays(s, attempted + beforeFailure, ticket);
      FailureSpends(Run(s, attempted + beforeFailure), ticket, turn[|turn| - 1]);
      RunStep(s, attempted + beforeFailure, turn[|turn| - 1]);
    }
  }

  lemma FailureSpends(s: Tables, ticket: Ticket, failure: Action)
    requires Issued(s, ticket) && failure.Fail? && failure.ticket == ticket
    ensures Spent(Step(s, failure), ticket)
  {
  }

  // The tickets that had a turn are spent if it settled them, and those flagged have evidence.
  predicate Achieved(s: Tables, tickets: seq<Ticket>, flags: seq<bool>, world: World) {
    |flags| <= |tickets| && forall i :: 0 <= i < |flags| ==>
      && Issued(s, tickets[i]) && (Settles(flags[i], world, i) ==> Spent(s, tickets[i]))
      && (flags[i] ==> DeliveredRow(tickets[i]) in s.evidence)
  }

  lemma AchievedStays(s: Tables, actions: seq<Action>, tickets: seq<Ticket>, flags: seq<bool>, world: World)
    requires Achieved(s, tickets, flags, world)
    ensures Achieved(Run(s, actions), tickets, flags, world)
  {
    EvidenceIsKept(s, actions);
    forall i | 0 <= i < |flags|
      ensures Issued(Run(s, actions), tickets[i])
      ensures Settles(flags[i], world, i) ==> Spent(Run(s, actions), tickets[i])
    {
      IssuedStays(s, actions, tickets[i]);
    }
  }

  lemma AchievedNext(s: Tables, tickets: seq<Ticket>, flags: seq<bool>, ticket: Ticket, done: bool, world: World)
    requires Achieved(s, tickets, flags, world) && |flags| == |tickets| && Issued(s, ticket)
    requires Settles(done, world, |tickets|) ==> Spent(s, ticket)
    requires done ==> DeliveredRow(ticket) in s.evidence
    ensures Achieved(s, tickets + [ticket], flags + [done], world)
  {
  }

  lemma NothingAchieved(policy: Policy, s: Tables, world: World)
    ensures Turns(policy, s, [], world) == ([], []) && Run(s, []) == s && Achieved(s, [], [], world)
  {
  }

  /** After the turns of any number of claimed tickets each of them is spent, whatever others do
      and whichever replies are lost, except where the failure update itself never arrived; and
      every delivery counted as completed has its evidence. */
  lemma {:induction false} RoundSpendsItsTickets(policy: Policy, s: Tables, tickets: seq<Ticket>, world: World)
    requires forall t :: t in tickets ==> t.delivery.consumer in s.definitions && Issued(s, t)
    ensures var (flags, trace) := Turns(policy, s, tickets, world);
            |flags| == |tickets| && Achieved(Run(s, trace), tickets, flags, world)
  {
    hide *;
    if tickets == [] {
      NothingAchieved(policy, s, world);
    } else {
      var n := |tickets| - 1;
      var shorter, last := tickets[..n], tickets[n];
      RoundSpendsItsTickets(policy, s, shorter, world);
      var (flags, trace) := Turns(policy, s, shorter, world);
      var now := Run(s, trace);
      var (done, turn) := NextTurn(policy, now, last, n, world);
      assert tickets == shorter + [last];
      IssuedStays(s, trace, last);
      DefinitionsAreKept(s, trace);
      TurnSpends(policy, now, last, n, world);
      AchievedStays(now, turn, shorter, flags, world);
      RunAppend(s, trace, turn);
      AchievedNext(Run(now, turn), shorter, flags, last, done, world);
      TurnsNext(policy, s, shorter, last, world);
    }
  }

  /** The failures of a round dead-letter exactly at the consumers' maxima. */
  lemma {:induction false} RoundIsGoverned(policy: Policy, s: Tables, tickets: seq<Ticket>, world: World)
    requires forall n: nat :: Governed(s.definitions, world.others(n))
    ensures Governed(s.definitions, Turns(policy, s, tickets, world).1)
  {
    if tickets != [] {
      var n := |tickets| - 1;
      RoundIsGoverned(policy, s, tickets[..n], world);
      var (_, trace) := Turns(policy, s, tickets[..n], world);
      DefinitionsAreKept(s, trace);
      TurnIsGoverned(policy, s.definitions, Run(s, trace), tickets[n], n, world);
    }
  }

  lemma TurnIsGoverned(policy: Policy, definitions: map<ConsumerKey, Definition>, s: Tables, ticket: Ticket, n: nat,
                       world: World)
    requires Governed(definitions, world.others(2 * n)) && Governed(definitions, world.others(2 * n + 1))
    requires s.definitions.Keys == definitions.Keys
    requires forall c :: c in definitions ==> s.definitions[c].maximumAttempts == definitions[c].maximumAttempts
    ensures Governed(definitions, NextTurn(policy, s, ticket, n, world).1)
  {
    hide Step, Run, Holds;
  }

  class Runtime {
    const workerId: WorkerId
    const batchSize: nat
    const retryBaseSeconds: nat
    const retryMaximumSeconds: nat
    var handlers: map<string, Ticket -> bool>

    function Rules(): Policy
      reads this
    {
      Policy(handlers, retryBaseSeconds, retryMaximumSeconds)
    }

    constructor (workerId: WorkerId, batchSize: nat, retryBaseSeconds: nat, retryMaximumSeconds: nat,
                 deliveryEvidence: Ticket -> bool)
      ensures this.workerId == workerId && this.batchSize == batchSize
      ensures Rules() == Policy(map["platform.delivery-evidence" := deliveryEvidence], retryBaseSeconds,
              retryMaximumSeconds)
    {
      this.workerId, this.batchSize := workerId, batchSize;
      this.retryBaseSeconds, this.retryMaximumSeconds := retryBaseSeconds, retryMaximumSeconds;
      var initial: map<string, Ticket -> bool> := map["platform.delivery-evidence" := deliveryEvidence];
      this.handlers := initial;
    }

    method Register(handlerKey: string, handler: Ticket -> bool) returns (registered: bool)
      modifies this
      ensures registered == (handlerKey !in old(handlers))
      ensures handlers == if registered then old(handlers)[handlerKey := handler] else old(handlers)
    {
      registered := handlerKey !in handlers;
      if registered {
        handlers := handlers[handlerKey := handler];
      }
    }

    // The try block: the handler, then the completion and what its reply says.
    method Attempt(repository: Repository, ticket: Ticket, handlerKey: string, duringHandler: seq<Action>, reply: Reply)
      returns (completed: bool, ghost trace: seq<Action>)
      modifies repository
      ensures var verdict := Verdict(Rules(), handlerKey, ticket);
              var holds := Holds(Run(old(repository.Model()), duringHandler), ticket);
              && trace == Attempted(verdict, ticket, duringHandler, reply)
              && (completed <==> verdict == Some(true) && reply == Answered && holds)
      ensures repository.Model() == Run(old(repository.Model()), trace)
    {
      RunNothing(repository.Model());
      hide Step, Run, Holds;
      completed, trace := false, [];
      if handlerKey in handlers {
        RunStep(repository.Model(), duringHandler, Action.Complete(ticket));
        repository.Meanwhile(duringHandler);
        trace := duringHandler;
        if handlers[handlerKey](ticket) && reply != LostBeforeCommit {
          var updated := repository.Complete(ticket);
          trace := duringHandler + [Action.Complete(ticket)];
          completed := reply == Answered && updated;
        }
      }
    }

    // The catch block: the failure update, and an exception when it is not answered.
    method Recover(repository: Repository, ticket: Ticket, maximumAttempts: nat, beforeFailure: seq<Action>,
                   reply: Reply, digest: DeliveryId -> nat)
      returns (thrown: bool, ghost trace: seq<Action>)
      modifies repository
      ensures thrown <==> reply != Answered
      ensures var now := Run(old(repository.Model()), beforeFailure).clock;
              trace == Recovered(Failure(Rules(), ticket, maximumAttempts, now, digest), beforeFailure, reply)
      ensures repository.Model() == Run(old(repository.Model()), trace)
    {
      hide Step, Run;
      repository.Meanwhile(beforeFailure);
      thrown, trace := reply != Answered, beforeFailure;
      if reply != LostBeforeCommit {
        ghost var failure := Failure(Rules(), ticket, maximumAttempts, repository.clock, digest);
        RunStep(old(repository.Model()), beforeFailure, failure);
        var delay := Retry.DelaySeconds(ticket.attempt, retryBaseSeconds, retryMaximumSeconds, digest(ticket.delivery));
        var next := Retry.NextAttemptAt(repository.clock, delay);
        var _ := repository.Fail(ticket, next, ticket.attempt >= maximumAttempts);
        trace := beforeFailure + [failure];
      }
    }

    // One delivery, from the claim's row to its settlement.
    method Deliver(repository: Repository, ticket: Ticket, duringHandler: seq<Action>, beforeFailure: seq<Action>,
                   reply: Reply, failureReply: Reply, digest: DeliveryId -> nat)
      returns (completed: bool, thrown: bool, ghost trace: seq<Action>)
      requires ticket.delivery.consumer in repository.definitions
      modifies repository
      ensures (completed, trace) == Turn(Rules(), old(repository.Model()), ticket, duringHandler, beforeFailure,
              reply, failureReply, digest)
      ensures thrown <==> !completed && failureReply != Answered
      ensures repository.Model() == Run(old(repository.Model()), trace)
    {
      hide Step, Run, Holds, Attempted, Failure, Recovered;
      thrown := false;
      var definition := repository.definitions[ticket.delivery.consumer];
      completed, trace := Attempt(repository, ticket, definition.handlerKey, duringHandler, reply);
      if !completed {
        RunAppend(old(repository.Model()), trace, beforeFailure);
        ghost var recovery;
        thrown, recovery := Recover(repository, ticket, definition.maximumAttempts, beforeFailure, failureReply,
            digest);
        RunAppend(old(repository.Model()), trace, recovery);
        trace := trace + recovery;
      }
    }

    /** The round does exactly this: it claims what it can, takes one turn for every ticket and
        counts the turns, whatever others do and whichever replies are lost. It ends early, with
        an exception in place of the counts, exactly after a failure update without an answer. */
    method ProcessDue(repository: Repository, visible: seq<DeliveryId>, world: World)
      returns (claimed: nat, completed: nat, failed: nat, thrown: bool, ghost claims: seq<Action>,
               ghost served: nat)
      modifies repository
      ensures Visits(claims, workerId, visible)
      ensures var s := old(repository.Model());
              var tickets := Won(s, claims);
              && served <= |tickets| == claimed <= batchSize && (|claims| == |visible| || claimed == batchSize)
              && var (flags, trace) := Turns(Rules(), Run(s, claims), tickets[..served], world);
              && |flags| == served && StopsRightly(flags, world.failureReplies, claimed, thrown)
              && (!thrown ==> completed == CountTrue(flags) && claimed == completed + failed)
              && repository.Model() == Run(s, claims + trace)
    {
      ghost var s := repository.Model();
      var deliveries;
      deliveries, claims := repository.Claim(workerId, visible, batchSize);
      WonTicketsHold(s, claims, workerId, visible);
      ghost var flags, trace;
      completed, failed, thrown, flags, trace := DeliverAll(repository, deliveries, world);
      claimed, served := |deliveries|, |flags|;
      RunAppend(s, claims, trace);
    }

    // The loop over the claimed deliveries.
    method DeliverAll(repository: Repository, deliveries: seq<Ticket>, world: World)
      returns (completed: nat, failed: nat, thrown: bool, ghost flags: seq<bool>, ghost trace: seq<Action>)
      requires forall t :: t in deliveries ==> t.delivery.consumer in repository.definitions
      modifies repository
      ensures StopsRightly(flags, world.failureReplies, |deliveries|, thrown)
      ensures (flags, trace) == Turns(Rules(), old(repository.Model()), deliveries[..|flags|], world)
      ensures repository.Model() == Run(old(repository.Model()), trace)
      ensures !thrown ==> |deliveries| == completed + failed && completed == CountTrue(flags)
    {
      ghost var s, rules := repository.Model(), Rules();
      completed, failed, thrown, flags, trace := 0, 0, false, [], [];
      assert Serving(rules, s, s, [], world, [], [], 0) && NoneThrows(flags, world.failureReplies);
      hide Step, Run, Turn, Turns, CountTrue, Serving, Throws, NoneThrows, StopsRightly;
      assert deliveries[..0] == [];
      for i := 0 to |deliveries|
        invariant Rules() == rules && completed + failed == i && !thrown
        invariant Serving(rules, s, repository.Model(), deliveries[..i], world, flags, trace, completed)
        invariant |flags| == i && NoneThrows(flags, world.failureReplies)
      {
        ghost var before := repository.Model();
        ServingKeepsDefinitions(rules, s, before, deliveries[..i], world, flags, trace, completed);
        ghost var turn;
        var done;
        done, thrown, turn := Deliver(repository, deliveries[i], world.others(2 * i), world.others(2 * i + 1),
            world.replies(i), world.failureReplies(i), world.digest);
        ServeNext(rules, s, before, deliveries, i, world, flags, trace, completed, done, turn);
        StopsNext(flags, done, world.failureReplies, |deliveries|, thrown);
        flags, trace := flags + [done], trace + turn;
        if thrown {
          Served(rules, s, repository.Model(), deliveries[..i + 1], world, flags, trace, completed);
          return;
        }
        if done {
          completed := completed + 1;
        } else {
          failed := failed + 1;
        }
      }
      StopsAtTheEnd(flags, world.failureReplies);
      Served(rules, s, repository.Model(), deliveries[..|deliveries|], world, flags, trace, completed);
    }
  }
}
