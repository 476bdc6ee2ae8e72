// What a round of the dispatcher owes its providers, its templates and the rows that wait.
module DispatcherHistory {
  import opened Wrappers
  import opened Notifications
  import opened NotificationDispatcher
  import opened Replies
  import opened DeliveryHistory
  import Retry

  // ------------------------------------------------------------------ the providers decide

  // The row that the acceptance would write has a key of its own.
  predicate IsNew(s: Tables, ticket: Ticket, message: Option<MessageId>) {
    Held(s, ticket) &&
    !TakenElsewhere(s.cases, ticket.intent, ticket.channel,
                    RowKey(RowAt(s, ticket.intent, ticket.channel).key.provider, message))
  }

  // An acceptance with the provider's id, or a rejection until the backoff's time, dead exactly at
  // the maximum.
  ghost predicate Reports(policy: Policy, now: Instant, ticket: Ticket, answer: Answer, a: Action) {
    if answer.Accepts? then a == Accept(policy.process, ticket, answer.message)
    else
      && a.Reject? && a.process == policy.process && a.ticket == ticket
      && (a.deadLetter <==> ticket.attempt >= policy.maximumAttempts)
      && Retry.IsBackedOff(now, a.nextAttempt, ticket.attempt, policy.retryBaseSeconds, policy.retryMaximumSeconds)
  }

  // After its report a turn only finalises the intent, once others have done what they do, or gives
  // that up.
  predicate ClosesWith(policy: Policy, ticket: Ticket, meanwhile: seq<Action>, rest: seq<Action>) {
    || rest == [] || rest == [Crash(policy.process, ticket.intent)]
    || rest == meanwhile + [Finalize(policy.process, ticket.intent)]
    || rest == meanwhile + [Crash(policy.process, ticket.intent)]
  }

  // What a turn from these tables with that ending says about the provider.
  ghost predicate Decided(policy: Policy, s: Tables, ticket: Ticket, n: nat, world: World, ending: Ending,
                          turn: seq<Action>) {
    var answer, heard, meanwhile := world.answers(ticket), world.heard(ticket), world.others(2 * n + 1);
    var allHeard := heard == Heard(Answered, Answered);
    && (answer.Throws? ==> ending == Thrown && turn == [])
    && (ending == Counted ==> answer.Accepts? && Held(s, ticket))
    && (allHeard && answer.Accepts? && IsNew(s, ticket, answer.message) ==> ending == Counted)
    && (allHeard && (answer.Rejects? || (answer.Accepts? && !Held(s, ticket))) ==> ending == NotCounted)
    && (heard.settlement != Answered || (answer.Accepts? && Held(s, ticket) && !IsNew(s, ticket, answer.message)) ==>
          ending == Thrown)
    && (!answer.Throws? && heard.settlement != LostBeforeCommit ==> turn != [])
    && (turn != [] ==>
          Reports(policy, s.clock, ticket, answer, turn[0]) && ClosesWith(policy, ticket, meanwhile, turn[1..]))
    && (allHeard && Held(s, ticket) &&
        (if answer.Accepts? then IsNew(s, ticket, answer.message)
         else answer.Rejects? && ticket.attempt >= policy.maximumAttempts) ==>
          turn[1..] == meanwhile + [Finalize(policy.process, ticket.intent)])
  }

  lemma TurnIsDecided(policy: Policy, s: Tables, ticket: Ticket, n: nat, world: World)
    requires policy.digest(ticket) <= Retry.DIGEST_MAXIMUM
    ensures var (ending, turn) := NextTurn(policy, s, ticket, n, world);
            Decided(policy, s, ticket, n, world, ending, turn)
  {
    Retry.NextAttemptIsBackedOff(s.clock, ticket.attempt, policy.retryBaseSeconds, policy.retryMaximumSeconds,
        policy.digest(ticket));
    hide Retry.DelaySeconds, Retry.NextAttemptAt, Retry.IsBackedOff, TakenElsewhere;
  }

  lemma {:induction false} OneEndingEach(policy: Policy, s: Tables, tickets: seq<Ticket>, world: World)
    ensures |DeliveryTurns(policy, s, tickets, world).0| == |tickets|
  {
    if tickets != [] {
      OneEndingEach(policy, s, tickets[..|tickets| - 1], world);
    }
  }

  /** Turn by turn: a delivery counts as sent only if its provider accepted it, and exactly then
      when the replies are heard and its row is still held and free to take the provider's id.  The
      report says what the provider said, and a final one is followed by the finalisation of the
      intent; a provider that throws leaves the row alone, and that, a lost reply or an id that
      another row has ends the round. */
  lemma {:induction false} ProvidersDecide(policy: Policy, s: Tables, tickets: seq<Ticket>, world: World, i: nat)
    requires i < |tickets| && policy.digest(tickets[i]) <= Retry.DIGEST_MAXIMUM
    ensures var (endings, trace) := DeliveryTurns(policy, s, tickets, world);
            var before := DeliveryTurns(policy, s, tickets[..i], world).1 + world.others(2 * i);
            var after := DeliveryTurns(policy, s, tickets[..i + 1], world).1;
            && |endings| == |tickets| && before <= after <= trace
            && Decided(policy, Run(s, before), tickets[i], i, world, endings[i], after[|before|..])
  {
    hide *;
    var n := |tickets| - 1;
    var shorter, last := tickets[..n], tickets[n];
    assert tickets == shorter + [last] && tickets[..n + 1] == tickets;
    var (endings, trace) := DeliveryTurns(policy, s, shorter, world);
    var before := trace + world.others(2 * n);
    var (ending, turn) := NextTurn(policy, Run(s, before), last, n, world);
    DeliveryTurnsNext(policy, s, shorter, last, world, endings, before, ending, turn);
    OneEndingEach(policy, s, shorter, world);
    if i < n {
      ProvidersDecide(policy, s, shorter, world, i);
      assert shorter[..i] == tickets[..i] && shorter[..i + 1] == tickets[..i + 1];
    } else {
      TurnIsDecided(policy, Run(s, before), last, n, world);
      assert (before + turn)[|before|..] == turn;
    }
  }

  // ------------------------------------------------------------------ templates and exceptions

  /** A preparation turn stores what its terms ask for only when its template is active and nothing
      in it throws; otherwise the intent becomes a dead letter without deliveries or digests. */
  lemma PreparationsFollowLookups(s: Tables, process: nat, intent: IntentId, lookup: Lookup, meanwhile: seq<Action>)
    requires IsPreparing(Run(s, meanwhile), process, intent)
    ensures var now := Run(s, meanwhile);
            var after := Run(s, PreparationTurn(s, process, intent, lookup, meanwhile)).cases[intent];
            var throws := lookup.throwsAt.Some? && lookup.throwsAt.value <= |now.cases[intent].channels|;
            if lookup.templateActive && !throws then
              after == Step(now, Prepare(process, intent, Prepared(lookup.terms))).cases[intent]
            else
              after.status == DeadLetter && after.deliveries == map[] && after.digests == {} && after.preparing.None?
  {
    var now := Run(s, meanwhile);
    var preparation := PreparationAt(now, intent, lookup);
    RunStep(s, meanwhile, Prepare(process, intent, preparation));
    if !preparation.Prepared? {
      FailedPreparationsAreDead(now, process, intent, preparation);
    }
    hide Step, Run, CaseInv;
  }

  // ------------------------------------------------------------------ claims miss nothing

  // Not yet claimed by anybody, and scheduled for now or earlier.
  predicate IsDue(s: Tables, intent: IntentId) {
    intent in s.cases && s.cases[intent].status == Pending && s.cases[intent].scheduledAt <= s.clock
  }

  lemma {:induction false} OtherIntentsAreUntouched(s: Tables, claims: seq<Action>, process: nat,
                                                    visible: seq<IntentId>, intent: IntentId)
    requires VisitsIntents(claims, process, visible) && intent !in visible[..|claims|]
    ensures var s' := Run(s, claims);
            && s'.clock == s.clock && (intent in s'.cases <==> intent in s.cases)
            && (intent in s.cases ==> s'.cases[intent] == s.cases[intent])
  {
    if claims != [] {
      hide CaseStep, Commits, Refused;
      var n := |claims| - 1;
      assert visible[..n + 1][n] == visible[n] && visible[..n] <= visible[..n + 1];
      OtherIntentsAreUntouched(s, claims[..n], process, visible, intent);
    }
  }

  /** The intents taken are exactly those of the visited rows that were due when the claim began. */
  lemma {:induction false} IntentClaimsMissNothing(s: Tables, claims: seq<Action>, process: nat,
                                                   visible: seq<IntentId>, intent: IntentId)
    requires VisitsIntents(claims, process, visible)
    requires forall i, j :: 0 <= i < j < |visible| ==> visible[i] != visible[j]
    ensures intent in Taken(s, claims) <==> IsDue(s, intent) && exists i :: 0 <= i < |claims| && visible[i] == intent
  {
    if claims == [] {
      NothingTaken(s);
    } else {
      var n := |claims| - 1;
      var earlier, last := claims[..n], visible[n];
      IntentClaimsMissNothing(s, earlier, process, visible, intent);
      assert last !in visible[..n];
      OtherIntentsAreUntouched(s, earlier, process, visible, last);
      assert claims == earlier + [Action.ClaimIntent(process, last)];
      hide Taken, Run;
      TakenNext(s, earlier, process, last);
    }
  }

  // Waiting or to be tried again, and its time has come: the ticket is for the next attempt.
  predicate NewTicket(s: Tables, owner: WorkerId, visited: (IntentId, Channel), t: Ticket) {
    && IsRow(s, visited.0, visited.1)
    && var d := RowAt(s, visited.0, visited.1);
       && d.state in {Waiting, Retrying} && d.nextAttemptAt <= s.clock
       && t == Ticket(visited.0, visited.1, d.attempts + 1, owner)
  }

  lemma {:induction false} OtherRowsAreUntouched(s: Tables, claims: seq<Action>, owner: WorkerId,
                                                 visible: seq<(IntentId, Channel)>, row: (IntentId, Channel))
    requires VisitsDeliveries(claims, owner, visible) && row !in visible[..|claims|]
    ensures var s' := Run(s, claims);
            && s'.clock == s.clock && (IsRow(s', row.0, row.1) <==> IsRow(s, row.0, row.1))
            && (IsRow(s, row.0, row.1) ==> RowAt(s', row.0, row.1) == RowAt(s, row.0, row.1))
  {
    if claims != [] {
      var n := |claims| - 1;
      assert visible[..n + 1][n] == visible[n] && visible[..n] <= visible[..n + 1];
      OtherRowsAreUntouched(s, claims[..n], owner, visible, row);
      assert visible[n] != row && claims[n] == Action.ClaimDelivery(owner, visible[n].0, visible[n].1);
      ClaimSparesOthers(Run(s, claims[..n]), owner, visible[n], row);
    }
  }

  lemma ClaimSparesOthers(s: Tables, owner: WorkerId, claimed: (IntentId, Channel), row: (IntentId, Channel))
    requires claimed != row
    ensures var s' := Step(s, Action.ClaimDelivery(owner, claimed.0, claimed.1));
            && s'.clock == s.clock && (IsRow(s', row.0, row.1) <==> IsRow(s, row.0, row.1))
            && (IsRow(s, row.0, row.1) ==> RowAt(s', row.0, row.1) == RowAt(s, row.0, row.1))
  {
    hide Commits, ConsiderAll, Claimable;
  }

  /** The tickets won are exactly those of the visited deliveries that were due when the claim
      began, each for its next attempt. */
  lemma {:induction false} DeliveryClaimsMissNothing(clock: Instant, actions: seq<Action>, claims: seq<Action>,
                                                     owner: WorkerId, visible: seq<(IntentId, Channel)>, t: Ticket)
    requires VisitsDeliveries(claims, owner, visible)
    requires forall i, j :: 0 <= i < j < |visible| ==> visible[i] != visible[j]
    ensures var s := Run(Empty(clock), actions);
            t in Won(s, claims) <==> exists i :: 0 <= i < |claims| && NewTicket(s, owner, visible[i], t)
  {
    var s := Run(Empty(clock), actions);
    hide Won, Run, NewTicket, TicketFor, Empty;
    if claims == [] {
      NothingWon(s);
    } else {
      var n := |claims| - 1;
      var earlier, last := claims[..n], visible[n];
      DeliveryClaimsMissNothing(clock, actions, earlier, owner, visible, t);
      assert last !in visible[..n];
      OtherRowsAreUntouched(s, earlier, owner, visible, last);
      assert claims == earlier + [Action.ClaimDelivery(owner, last.0, last.1)];
      WonNext(s, earlier, owner, last.0, last.1);
      DueIsClaimable(clock, actions, Run(s, earlier), owner, last, t);
    }
  }

  lemma DueIsClaimable(clock: Instant, actions: seq<Action>, now: Tables, owner: WorkerId, row: (IntentId, Channel),
                       t: Ticket)
    requires var s := Run(Empty(clock), actions);
             && now.clock == s.clock && (IsRow(now, row.0, row.1) <==> IsRow(s, row.0, row.1))
             && (IsRow(s, row.0, row.1) ==> RowAt(now, row.0, row.1) == RowAt(s, row.0, row.1))
    ensures TicketFor(now, owner, row.0, row.1) == Some(t) <==>
            NewTicket(Run(Empty(clock), actions), owner, row, t)
  {
    hide Run, Empty;
    if IsRow(Run(Empty(clock), actions), row.0, row.1) {
      LeaseTestIsRedundant(clock, actions, row.0, row.1);
    }
  }
}
