/**
  What the delivery rows of notifications say about the past, which settlements count, and what
  waits for its time.
*/
module DeliveryHistory {
  import opened Wrappers
  import opened Notifications

  // The tables before the i-th step of the run.
  function Then(clock: Instant, actions: seq<Action>, i: nat): Tables
    requires i <= |actions|
  {
    Run(Empty(clock), actions[..i])
  }

  function RowAt(s: Tables, intent: IntentId, channel: Channel): Delivery
    requires IsRow(s, intent, channel)
  {
    s.cases[intent].deliveries[channel]
  }

  // The i-th step claimed this attempt for this worker, when the delivery was due.
  predicate ClaimedAt(clock: Instant, actions: seq<Action>, i: nat, ticket: Ticket)
    requires i < |actions|
  {
    var s, a := Then(clock, actions, i), actions[i];
    && a == ClaimDelivery(ticket.owner, ticket.intent, ticket.channel) && IsRow(s, ticket.intent, ticket.channel)
    && var d := RowAt(s, ticket.intent, ticket.channel);
       d.attempts + 1 == ticket.attempt && d.state in {Waiting, Retrying} && d.nextAttemptAt <= s.clock
  }

  predicate HasClaimed(clock: Instant, actions: seq<Action>, ticket: Ticket) {
    exists i :: 0 <= i < |actions| && ClaimedAt(clock, actions, i, ticket)
  }

  predicate PreparedAt(clock: Instant, actions: seq<Action>, i: nat, intent: IntentId, d: Delivery)
    requires i < |actions|
  {
    && actions[i].Prepare? && actions[i].intent == intent && actions[i].preparation.Prepared?
    && d.nextAttemptAt == Then(clock, actions, i).clock
  }

  // The i-th step settled the row's last attempt, by a worker that had claimed it.
  predicate SettledAt(clock: Instant, actions: seq<Action>, i: nat, intent: IntentId, channel: Channel, d: Delivery)
    requires i < |actions|
  {
    var a := actions[i];
    && (a.Accept? || a.Reject?) && HasClaimed(clock, actions, a.ticket)
    && a.ticket == Ticket(intent, channel, d.attempts, a.ticket.owner)
    && (if a.Accept? then d.state == Sent && d.key.message == a.message
        else d.state == (if a.deadLetter then Dead else Retrying) && d.nextAttemptAt == a.nextAttempt)
  }

  // A row is as its preparation stored it, under way for the worker that claimed its last attempt,
  // or as the settlement of its last attempt has left it; only a row under way holds a lease.
  predicate RowIsTold(clock: Instant, actions: seq<Action>, intent: IntentId, channel: Channel, d: Delivery) {
    && (d.state == InProgress <==> d.leaseOwner.Some?) && (d.state == InProgress <==> d.leasedAt.Some?)
    && match d.state
       case Waiting | Withheld =>
         d.attempts == 0 && d.key.message.None? &&
         exists i :: 0 <= i < |actions| && PreparedAt(clock, actions, i, intent, d)
       case InProgress =>
         d.leaseOwner.Some? && HasClaimed(clock, actions, Ticket(intent, channel, d.attempts, d.leaseOwner.value))
       case _ => exists i :: 0 <= i < |actions| && SettledAt(clock, actions, i, intent, channel, d)
  }

  lemma ThenStays(clock: Instant, actions: seq<Action>, a: Action, i: nat)
    requires i <= |actions|
    ensures Then(clock, actions + [a], i) == Then(clock, actions, i)
    ensures i < |actions| ==> (actions + [a])[i] == actions[i]
  {
    assert (actions + [a])[..i] == actions[..i];
  }

  lemma ThenNow(clock: Instant, actions: seq<Action>, a: Action)
    ensures Then(clock, actions + [a], |actions|) == Run(Empty(clock), actions)
    ensures (actions + [a])[|actions|] == a
  {
    assert (actions + [a])[..|actions|] == actions;
  }

  lemma ClaimStays(clock: Instant, actions: seq<Action>, a: Action, ticket: Ticket)
    requires HasClaimed(clock, actions, ticket)
    ensures HasClaimed(clock, actions + [a], ticket)
  {
    hide Then;
    var i :| 0 <= i < |actions| && ClaimedAt(clock, actions, i, ticket);
    ThenStays(clock, actions, a, i);
    assert ClaimedAt(clock, actions + [a], i, ticket);
  }

  lemma RowStays(clock: Instant, actions: seq<Action>, a: Action, intent: IntentId, channel: Channel, d: Delivery)
    requires RowIsTold(clock, actions, intent, channel, d)
    ensures RowIsTold(clock, actions + [a], intent, channel, d)
  {
    hide Then, HasClaimed;
    var more := actions + [a];
    if d.state == InProgress {
      ClaimStays(clock, actions, a, Ticket(intent, channel, d.attempts, d.leaseOwner.value));
    } else if d.state in {Waiting, Withheld} {
      var i :| 0 <= i < |actions| && PreparedAt(clock, actions, i, intent, d);
      ThenStays(clock, actions, a, i);
      assert PreparedAt(clock, more, i, intent, d);
    } else {
      var i :| 0 <= i < |actions| && SettledAt(clock, actions, i, intent, channel, d);
      ClaimStays(clock, actions, a, actions[i].ticket);
      assert more[i] == actions[i] && SettledAt(clock, more, i, intent, channel, d);
    }
  }

  // ------------------------------------------------------------------ what a step writes

  predicate IsFresh(d: Delivery, now: Instant) {
    && d.state in {Waiting, Withheld} && d.attempts == 0 && d.nextAttemptAt == now
    && d.leasedAt.None? && d.leaseOwner.None? && d.key.message.None?
  }

  lemma {:induction false} StoredAreFresh(c: Case, terms: Terms, n: nat, now: Instant)
    requires n <= |c.channels| && c.deliveries == map[]
    ensures forall x :: x in ConsiderAll(c, terms, n, now).deliveries ==>
            IsFresh(ConsiderAll(c, terms, n, now).deliveries[x], now)
  {
    if n > 0 {
      StoredAreFresh(c, terms, n - 1, now);
      hide ProviderOf;
    }
  }

  // What a claim or a settlement makes of the row that it finds.
  predicate Moves(a: Action, intent: IntentId, channel: Channel, d: Delivery, d': Delivery, now: Instant) {
    match a
    case ClaimDelivery(owner, _, _) =>
      && a.intent == intent && a.channel == channel && d.state in {Waiting, Retrying} && d.nextAttemptAt <= now
      && d' == Delivery(InProgress, d.key, d.attempts + 1, d.nextAttemptAt, Some(now), Some(owner))
    case Accept(_, ticket, message) =>
      && ticket.intent == intent && ticket.channel == channel && ticket.attempt == d.attempts
      && d.state == InProgress && d.leaseOwner == Some(ticket.owner)
      && d' == Delivery(Sent, RowKey(d.key.provider, message), d.attempts, d.nextAttemptAt, None, None)
    case Reject(_, ticket, next, deadLetter) =>
      && ticket.intent == intent && ticket.channel == channel && ticket.attempt == d.attempts
      && d.state == InProgress && d.leaseOwner == Some(ticket.owner)
      && d' == Delivery(if deadLetter then Dead else Retrying, d.key, d.attempts, next, None, None)
    case _ => false
  }

  lemma CaseMoves(c: Case, a: Action, intent: IntentId, channel: Channel, now: Instant)
    requires CaseInv(c) && Target(a) == Some(intent) && channel in CaseStep(c, a, now).deliveries
    requires channel in c.deliveries ==> CaseStep(c, a, now).deliveries[channel] != c.deliveries[channel]
    ensures var d' := CaseStep(c, a, now).deliveries[channel];
            if channel in c.deliveries then Moves(a, intent, channel, c.deliveries[channel], d', now)
            else a.Prepare? && a.intent == intent && a.preparation.Prepared? && IsFresh(d', now)
  {
    hide ConsiderAll, AnySendable, AnyOpen, AnyDead, StatusAfter, CaseInv, Commits, IsFresh;
    if a.Prepare? {
      PreparationStores(c, a, intent, channel, now);
    } else {
      assert channel in c.deliveries;
    }
  }

  lemma PreparationStores(c: Case, a: Action, intent: IntentId, channel: Channel, now: Instant)
    requires CaseInv(c) && a.Prepare? && a.intent == intent && channel in CaseStep(c, a, now).deliveries
    requires channel in c.deliveries ==> CaseStep(c, a, now).deliveries[channel] != c.deliveries[channel]
    ensures channel !in c.deliveries && a.preparation.Prepared? &&
            IsFresh(CaseStep(c, a, now).deliveries[channel], now)
  {
    hide ConsiderAll, AnySendable, AnyOpen, AnyDead, StatusAfter, IsFresh;
    if c.preparing == Some(a.process) && a.preparation.Prepared? {
      StoredAreFresh(c, a.preparation.terms, |c.channels|, now);
    }
  }

  lemma RowMoves(s: Tables, a: Action, intent: IntentId, channel: Channel)
    requires Inv(s) && IsRow(Step(s, a), intent, channel)
    requires IsRow(s, intent, channel) ==> RowAt(Step(s, a), intent, channel) != RowAt(s, intent, channel)
    ensures var d' := RowAt(Step(s, a), intent, channel);
            if IsRow(s, intent, channel) then Moves(a, intent, channel, RowAt(s, intent, channel), d', s.clock)
            else a.Prepare? && a.intent == intent && a.preparation.Prepared? && IsFresh(d', s.clock)
  {
    hide CaseStep, CaseInv, Commits, Refused;
    if intent in s.cases {
      CaseMoves(s.cases[intent], Admitted(s, a), intent, channel, s.clock);
    }
  }

  lemma RowNext(clock: Instant, actions: seq<Action>, a: Action, intent: IntentId, channel: Channel)
    requires var s := Run(Empty(clock), actions);
             && Inv(s) && IsRow(Step(s, a), intent, channel)
             && (IsRow(s, intent, channel) ==>
                   RowIsTold(clock, actions, intent, channel, RowAt(s, intent, channel)))
    ensures RowIsTold(clock, actions + [a], intent, channel,
                      RowAt(Step(Run(Empty(clock), actions), a), intent, channel))
  {
    hide Then, Run, Empty, Inv, Step, HasClaimed;
    var s, i, more := Run(Empty(clock), actions), |actions|, actions + [a];
    var d' := RowAt(Step(s, a), intent, channel);
    ThenNow(clock, actions, a);
    assert Then(clock, more, i) == s && more[i] == a && i < |more|;
    if IsRow(s, intent, channel) && d' == RowAt(s, intent, channel) {
      RowStays(clock, actions, a, intent, channel, d');
    } else {
      RowMoves(s, a, intent, channel);
      if a.Prepare? {
        assert PreparedAt(clock, more, i, intent, d');
      } else if a.ClaimDelivery? {
        assert ClaimedAt(clock, more, i, Ticket(intent, channel, d'.attempts, a.owner));
        ClaimIsThere(clock, more, i, Ticket(intent, channel, d'.attempts, a.owner));
      } else {
        ClaimStays(clock, actions, a, a.ticket);
        assert SettledAt(clock, more, i, intent, channel, d');
      }
    }
  }

  lemma ClaimIsThere(clock: Instant, actions: seq<Action>, i: nat, ticket: Ticket)
    requires i < |actions| && ClaimedAt(clock, actions, i, ticket)
    ensures HasClaimed(clock, actions, ticket)
  {
  }

  /** On every run a delivery row says what the step that wrote it said: a preparation when it was
      stored, a claim whose it is, the settlement of its last attempt the provider's message id or
      the time of the next attempt; and that attempt had been claimed when it was due. */
  lemma {:induction false} RowsTellThePast(clock: Instant, actions: seq<Action>)
    ensures var s := Run(Empty(clock), actions);
            forall intent, channel :: IsRow(s, intent, channel) ==>
              RowIsTold(clock, actions, intent, channel, RowAt(s, intent, channel))
  {
    if actions != [] {
      var before, a := actions[..|actions| - 1], actions[|actions| - 1];
      RowsTellThePast(clock, before);
      RunKeepsInv(Empty(clock), before);
      hide RowIsTold, Step, Empty, Inv;
      assert actions == before + [a];
      RunStep(Empty(clock), before, a);
      forall intent, channel | IsRow(Step(Run(Empty(clock), before), a), intent, channel)
        ensures RowIsTold(clock, actions, intent, channel,
                          RowAt(Step(Run(Empty(clock), before), a), intent, channel))
      {
        RowNext(clock, before, a, intent, channel);
      }
    }
  }

  /** Only a delivery under way holds a lease, so the claim's lease test never decides anything. */
  lemma LeaseTestIsRedundant(clock: Instant, actions: seq<Action>, intent: IntentId, channel: Channel)
    requires IsRow(Run(Empty(clock), actions), intent, channel)
    ensures var s := Run(Empty(clock), actions);
            var d := RowAt(s, intent, channel);
            Claimable(d, s.clock) <==> d.state in {Waiting, Retrying} && d.nextAttemptAt <= s.clock
  {
    RowsTellThePast(clock, actions);
    hide Run, Empty, HasClaimed, PreparedAt, SettledAt;
  }

  // ------------------------------------------------------------------ which settlements count

  // The attempt is over, or it is the ticket's owner that holds it.
  predicate Lasts(s: Tables, ticket: Ticket) {
    && IsRow(s, ticket.intent, ticket.channel)
    && var d := RowAt(s, ticket.intent, ticket.channel);
       && d.attempts >= ticket.attempt
       && (d.attempts == ticket.attempt && d.state == InProgress ==> d.leaseOwner == Some(ticket.owner))
  }

  lemma RowsAreKept(s: Tables, a: Action, intent: IntentId, channel: Channel)
    requires Inv(s) && IsRow(s, intent, channel)
    ensures IsRow(Step(s, a), intent, channel)
  {
    hide ConsiderAll, AnySendable, AnyOpen, AnyDead, StatusAfter, Commits, Refused, Claimable, Holds;
    assert CaseInv(s.cases[intent]);
  }

  lemma LastsOn(s: Tables, a: Action, ticket: Ticket)
    requires Inv(s) && Lasts(s, ticket)
    ensures Lasts(Step(s, a), ticket)
  {
    hide Step, Inv;
    RowsAreKept(s, a, ticket.intent, ticket.channel);
    if RowAt(Step(s, a), ticket.intent, ticket.channel) != RowAt(s, ticket.intent, ticket.channel) {
      RowMoves(s, a, ticket.intent, ticket.channel);
    }
  }

  lemma LastsFromClaim(s: Tables, ticket: Ticket)
    requires Inv(s) && IsRow(s, ticket.intent, ticket.channel)
    requires RowAt(s, ticket.intent, ticket.channel).attempts + 1 == ticket.attempt
    requires Claimable(RowAt(s, ticket.intent, ticket.channel), s.clock)
    ensures Lasts(Step(s, ClaimDelivery(ticket.owner, ticket.intent, ticket.channel)), ticket)
  {
    hide ConsiderAll, AnySendable, AnyOpen, AnyDead, Commits;
  }

  lemma {:induction false} ClaimLasts(clock: Instant, actions: seq<Action>, ticket: Ticket)
    requires HasClaimed(clock, actions, ticket)
    ensures Lasts(Run(Empty(clock), actions), ticket)
  {
    var before, a := actions[..|actions| - 1], actions[|actions| - 1];
    assert actions == before + [a];
    RunStep(Empty(clock), before, a);
    RunKeepsInv(Empty(clock), before);
    ThenNow(clock, before, a);
    var i :| 0 <= i < |actions| && ClaimedAt(clock, actions, i, ticket);
    if i < |before| {
      ThenStays(clock, before, a, i);
      assert ClaimedAt(clock, before, i, ticket);
      ClaimLasts(clock, before, ticket);
      hide Step, Inv, Run, Empty;
      LastsOn(Run(Empty(clock), before), a, ticket);
    } else {
      hide Step, Inv, Run, Empty, Then;
      LeaseTestIsRedundant(clock, before, ticket.intent, ticket.channel);
      LastsFromClaim(Run(Empty(clock), before), ticket);
    }
  }

  /** A settlement changes the tables if and only if its worker claimed that very attempt, it is
      still under way, and, for an acceptance, no other row has the provider's message id. */
  lemma SettlementCountsExactlyWhen(clock: Instant, actions: seq<Action>, a: Action)
    requires a.Accept? || a.Reject?
    ensures var s, ticket := Run(Empty(clock), actions), a.ticket;
            Step(s, a) != s <==>
            && HasClaimed(clock, actions, ticket) && IsRow(s, ticket.intent, ticket.channel)
            && var d := RowAt(s, ticket.intent, ticket.channel);
               && d.state == InProgress && d.attempts == ticket.attempt
               && (a.Accept? ==> !TakenElsewhere(s.cases, ticket.intent, ticket.channel,
                                                 RowKey(d.key.provider, a.message)))
  {
    var s, ticket := Run(Empty(clock), actions), a.ticket;
    RowsTellThePast(clock, actions);
    hide Run, Empty, HasClaimed, SettledAt, PreparedAt, TakenElsewhere, ConsiderAll, AnyOpen, AnyDead, Commits;
    if HasClaimed(clock, actions, ticket) {
      ClaimLasts(clock, actions, ticket);
    }
    if IsRow(s, ticket.intent, ticket.channel) && Step(s, a) == s {
      assert Refused(s, a) || !Holds(s.cases[ticket.intent], ticket);
    }
  }

  // ------------------------------------------------------------------ what waits

  // The delivery still waits after its attempt, or the time it waits for has come.
  predicate Waits(s: Tables, intent: IntentId, channel: Channel, d: Delivery) {
    s.clock >= d.nextAttemptAt || (IsRow(s, intent, channel) && RowAt(s, intent, channel) == d)
  }

  lemma ClockRises(s: Tables, a: Action)
    ensures Step(s, a).clock >= s.clock
  {
  }

  /** A delivery that waits, for the first time or after a rejection, stays as it is until its time
      has come. */
  lemma {:induction false} DeliveriesWait(s: Tables, actions: seq<Action>, intent: IntentId, channel: Channel)
    requires Inv(s) && IsRow(s, intent, channel) && RowAt(s, intent, channel).state in {Waiting, Retrying}
    ensures var s', d := Run(s, actions), RowAt(s, intent, channel);
            s'.clock >= d.nextAttemptAt || (IsRow(s', intent, channel) && RowAt(s', intent, channel) == d)
  {
    if actions != [] {
      var shorter, a := actions[..|actions| - 1], actions[|actions| - 1];
      DeliveriesWait(s, shorter, intent, channel);
      RunKeepsInv(s, shorter);
      var now := Run(s, shorter);
      hide Step, Inv;
      ClockRises(now, a);
      if now.clock < RowAt(s, intent, channel).nextAttemptAt {
        RowsAreKept(now, a, intent, channel);
        if RowAt(Step(now, a), intent, channel) != RowAt(now, intent, channel) {
          RowMoves(now, a, intent, channel);
        }
      }
    }
  }

  /** An intent that is scheduled for later is left alone until then. */
  lemma {:induction false} IntentsWait(s: Tables, actions: seq<Action>, intent: IntentId)
    requires Inv(s) && intent in s.cases && s.cases[intent].status == Pending
    ensures var s', c := Run(s, actions), s.cases[intent];
            s'.clock >= c.scheduledAt || (intent in s'.cases && s'.cases[intent] == c)
  {
    if actions != [] {
      var shorter, a := actions[..|actions| - 1], actions[|actions| - 1];
      IntentsWait(s, shorter, intent);
      RunKeepsInv(s, shorter);
      PendingStep(Run(s, shorter), a, intent);
    }
  }

  lemma PendingStep(s: Tables, a: Action, intent: IntentId)
    requires Inv(s)
    ensures Step(s, a).clock >= s.clock
    ensures intent in s.cases && s.cases[intent].status == Pending && s.clock < s.cases[intent].scheduledAt ==>
            intent in Step(s, a).cases && Step(s, a).cases[intent] == s.cases[intent]
  {
    hide ConsiderAll, AnySendable, AnyOpen, AnyDead, Commits, Refused;
    if intent in s.cases {
      assert CaseInv(s.cases[intent]);
    }
  }

  /** A preparation without a template, or in which anything throws, leaves a dead letter without
      deliveries and without digests. */
  lemma FailedPreparationsAreDead(s: Tables, process: nat, intent: IntentId, preparation: Preparation)
    requires IsPreparing(s, process, intent) && !preparation.Prepared?
    ensures var after := Step(s, Prepare(process, intent, preparation)).cases[intent];
            && after.status == DeadLetter && after.deliveries == map[] && after.digests == {} && after.preparing.None?
  {
  }

  lemma CaseKeepsTerms(c: Case, a: Action, now: Instant)
    ensures CaseStep(c, a, now).channels == c.channels && CaseStep(c, a, now).scheduledAt == c.scheduledAt
  {
    hide ConsiderAll, AnyOpen, AnyDead, StatusAfter, Claimable, Holds;
  }

  lemma IntentStep(s: Tables, a: Action, intent: IntentId)
    ensures intent in s.cases ==>
            intent in Step(s, a).cases && Step(s, a).cases[intent].channels == s.cases[intent].channels &&
            Step(s, a).cases[intent].scheduledAt == s.cases[intent].scheduledAt
    ensures intent !in s.cases && intent in Step(s, a).cases ==>
            a == Create(intent, Step(s, a).cases[intent].channels, Step(s, a).cases[intent].scheduledAt)
  {
    hide CaseStep, Commits, Refused;
    if intent in s.cases {
      CaseKeepsTerms(s.cases[intent], Admitted(s, a), s.clock);
    }
  }

  /** Every intent has the channels and the time that it was created with. */
  lemma {:induction false} IntentsTellThePast(clock: Instant, actions: seq<Action>, intent: IntentId)
    requires intent in Run(Empty(clock), actions).cases
    ensures var c := Run(Empty(clock), actions).cases[intent];
            Create(intent, c.channels, c.scheduledAt) in actions
  {
    if actions != [] {
      var before, a := actions[..|actions| - 1], actions[|actions| - 1];
      assert actions == before + [a];
      IntentStep(Run(Empty(clock), before), a, intent);
      if intent in Run(Empty(clock), before).cases {
        IntentsTellThePast(clock, before, intent);
      }
    }
  }
}
