/**
  The unique key of the delivery table on provider and message id, which counts a missing id as
  a value: what it enforces over whole runs, and what it does to intents that have nothing to
  do with each other.
*/
module DeliveryKeys {
  import opened Wrappers
  import opened Notifications

  // ------------------------------------------------------------------ the unique key on every run

  // Only sent rows have a message id, and withheld rows have one of two providers.
  predicate Shaped(c: Case) {
    forall x :: x in c.deliveries ==>
      && (c.deliveries[x].state != Sent ==> c.deliveries[x].key.message.None?)
      && (c.deliveries[x].state == Withheld ==> c.deliveries[x].key.provider in {"preference", "suppression"})
  }

  ghost predicate Unique(s: Tables) {
    forall i, x, j, y :: IsRow(s, i, x) && IsRow(s, j, y) && KeyAt(s, i, x) == KeyAt(s, j, y) ==> i == j && x == y
  }

  ghost predicate KeysInv(s: Tables) {
    Inv(s) && Unique(s) && forall intent :: intent in s.cases ==> Shaped(s.cases[intent])
  }

  lemma {:induction false} PreparedShape(c: Case, terms: Terms, n: nat, now: Instant)
    requires n <= |c.channels| && c.deliveries == map[]
    ensures Shaped(c.(deliveries := ConsiderAll(c, terms, n, now).deliveries))
  {
    if n > 0 {
      PreparedShape(c, terms, n - 1, now);
    }
  }

  lemma ShapedStep(c: Case, action: Action, now: Instant)
    requires CaseInv(c) && Shaped(c)
    ensures Shaped(CaseStep(c, action, now))
  {
    if action.Prepare? && action.preparation.Prepared? && c.preparing == Some(action.process) {
      PreparedShape(c, action.preparation.terms, |c.channels|, now);
    }
  }

  // The same rows with the same keys.
  predicate SameRows(c: Case, c': Case) {
    && c'.deliveries.Keys == c.deliveries.Keys
    && forall x :: x in c.deliveries ==> c'.deliveries[x].key == c.deliveries[x].key
  }

  lemma ClaimsAndRejectionsKeepRows(c: Case, action: Action, now: Instant)
    requires action.ClaimDelivery? || action.Reject?
    ensures SameRows(c, CaseStep(c, action, now))
  {
  }

  lemma MostStepsLeaveRowsAlone(c: Case, action: Action, now: Instant)
    requires !(action.Prepare? && action.preparation.Prepared?)
    requires !action.Accept? && !action.ClaimDelivery? && !action.Reject?
    ensures CaseStep(c, action, now).deliveries == c.deliveries
  {
    hide *;
    match action {
      case Finalize(process, intent) => FinalizeLeavesRowsAlone(c, process, intent, now);
      case Crash(process, intent) => CrashLeavesRowsAlone(c, process, intent, now);
      case _ => OthersLeaveRowsAlone(c, action, now);
    }
  }

  lemma FinalizeLeavesRowsAlone(c: Case, process: nat, intent: IntentId, now: Instant)
    ensures CaseStep(c, Finalize(process, intent), now).deliveries == c.deliveries
  {
    hide ConsiderAll, AnyOpen, AnyDead, Claimable, Holds;
  }

  lemma CrashLeavesRowsAlone(c: Case, process: nat, intent: IntentId, now: Instant)
    ensures CaseStep(c, Crash(process, intent), now).deliveries == c.deliveries
  {
    hide ConsiderAll, Finalized, Claimable, Holds;
  }

  lemma OthersLeaveRowsAlone(c: Case, action: Action, now: Instant)
    requires !(action.Prepare? && action.preparation.Prepared?) && !action.Finalize? && !action.Crash?
    requires !action.Accept? && !action.ClaimDelivery? && !action.Reject?
    ensures CaseStep(c, action, now).deliveries == c.deliveries
  {
    hide ConsiderAll, Finalized, Claimable, Holds;
  }

  lemma MostStepsKeepRows(c: Case, action: Action, now: Instant)
    requires !(action.Prepare? && action.preparation.Prepared?) && !(action.Accept? && Holds(c, action.ticket))
    ensures SameRows(c, CaseStep(c, action, now))
  {
    hide Holds;
    if action.ClaimDelivery? || action.Reject? {
      hide CaseStep;
      ClaimsAndRejectionsKeepRows(c, action, now);
    } else if !action.Accept? {
      hide CaseStep;
      MostStepsLeaveRowsAlone(c, action, now);
    }
  }

  lemma SameRowsUnique(s: Tables, intent: IntentId, c: Case)
    requires Unique(s) && intent in s.cases && SameRows(s.cases[intent], c)
    ensures Unique(s.(cases := s.cases[intent := c]))
  {
    var s' := s.(cases := s.cases[intent := c]);
    forall i, x | IsRow(s', i, x)
      ensures IsRow(s, i, x) && KeyAt(s, i, x) == KeyAt(s', i, x)
    {
    }
  }

  lemma AcceptUnique(s: Tables, process: nat, ticket: Ticket, message: Option<MessageId>)
    requires Unique(s) && ticket.intent in s.cases && Holds(s.cases[ticket.intent], ticket)
    requires !Refused(s, Accept(process, ticket, message))
    ensures Unique(Step(s, Accept(process, ticket, message)))
  {
    var s' := Step(s, Accept(process, ticket, message));
    forall i, x | IsRow(s', i, x)
      ensures IsRow(s, i, x)
      ensures i != ticket.intent || x != ticket.channel ==>
              KeyAt(s, i, x) == KeyAt(s', i, x) != KeyAt(s', ticket.intent, ticket.channel)
    {
    }
  }

  lemma StoredKeys(c: Case, terms: Terms, now: Instant)
    requires c.deliveries == map[]
    ensures var rows, stored := ConsiderAll(c, terms, |c.channels|, now).deliveries, Stored(c, terms, |c.channels|);
            rows.Keys == stored.Keys && forall x :: x in rows ==> rows[x].key == RowKey(stored[x], None)
  {
    forall x: Channel {
      FirstInsertWins(c, terms, |c.channels|, now, x);
    }
  }

  lemma NewRowsUnique(s: Tables, intent: IntentId, c: Case, stored: map<Channel, ProviderKey>)
    requires Unique(s) && intent in s.cases && s.cases[intent].deliveries == map[]
    requires c.deliveries.Keys == stored.Keys && Apart(stored, Standing(s.cases, intent))
    requires forall x :: x in c.deliveries ==> c.deliveries[x].key == RowKey(stored[x], None)
    ensures Unique(s.(cases := s.cases[intent := c]))
  {
    var s' := s.(cases := s.cases[intent := c]);
    forall i, x | IsRow(s', i, x) && i != intent
      ensures IsRow(s, i, x) && KeyAt(s, i, x) == KeyAt(s', i, x)
      ensures forall y :: y in stored ==> KeyAt(s', i, x) != RowKey(stored[y], None)
    {
      if KeyAt(s, i, x).message.None? {
        assert KeyAt(s, i, x).provider in Unsent(s.cases[i].deliveries);
        assert KeyAt(s, i, x).provider in Standing(s.cases, intent);
      }
    }
  }

  lemma PreparedUnique(s: Tables, process: nat, intent: IntentId, terms: Terms)
    requires Unique(s) && IsPreparing(s, process, intent)
    ensures Unique(Step(s, Prepare(process, intent, Prepared(terms))))
  {
    var c := s.cases[intent];
    var after := Step(s, Prepare(process, intent, Prepared(terms))).cases[intent];
    assert c.deliveries == map[];
    StoredKeys(c, terms, s.clock);
    CommitsExactlyWhen(s, process, intent, terms);
    hide ConsiderAll, Standing, Apart, CaseInv, Commits, CaseStep, Unique, Stored;
    if IsFree(s, intent, terms) {
      NewRowsUnique(s, intent, after, Stored(c, terms, |c.channels|));
    } else {
      SameRowsUnique(s, intent, after);
    }
  }

  lemma NoRowsUnique(s: Tables, intent: IntentId, c: Case)
    requires Unique(s) && intent !in s.cases && c.deliveries == map[]
    ensures Unique(s.(cases := s.cases[intent := c]))
  {
    var s' := s.(cases := s.cases[intent := c]);
    forall i, x | IsRow(s', i, x)
      ensures IsRow(s, i, x) && KeyAt(s, i, x) == KeyAt(s', i, x)
    {
    }
  }

  lemma ClockUnique(s: Tables, now: Instant)
    requires Unique(s)
    ensures Unique(s.(clock := now))
  {
    forall i, x | IsRow(s.(clock := now), i, x)
      ensures IsRow(s, i, x) && KeyAt(s, i, x) == KeyAt(s.(clock := now), i, x)
    {
    }
  }

  lemma StepKeepsUnique(s: Tables, action: Action)
    requires Inv(s) && Unique(s)
    ensures Unique(Step(s, action))
  {
    hide Unique, CaseStep, CaseInv, Commits;
    if action.Tick? {
      ClockUnique(s, Step(s, action).clock);
    } else {
      var intent := Target(action).value;
      if intent !in s.cases {
        if action.Create? {
          NoRowsUnique(s, intent, NewCase(action.channels, action.scheduledAt));
        }
      } else if !Refused(s, action) {
        var c := s.cases[intent];
        if action.Accept? && Holds(c, action.ticket) {
          AcceptUnique(s, action.process, action.ticket, action.message);
        } else if action.Prepare? && action.preparation.Prepared? {
          if c.preparing == Some(action.process) {
            PreparedUnique(s, action.process, intent, action.preparation.terms);
          } else {
            NotPreparing(c, Admitted(s, action), s.clock);
            SameRowsUnique(s, intent, c);
          }
        } else {
          MostStepsKeepRows(c, action, s.clock);
          SameRowsUnique(s, intent, CaseStep(c, action, s.clock));
        }
      }
    }
  }

  lemma NotPreparing(c: Case, action: Action, now: Instant)
    requires action.Prepare? && c.preparing != Some(action.process)
    ensures CaseStep(c, action, now) == c && SameRows(c, c)
  {
  }

  lemma EmptyShape()
    ensures forall c: Case :: c.deliveries == map[] ==> Shaped(c)
  {
  }

  lemma StepKeepsKeys(s: Tables, action: Action)
    requires KeysInv(s)
    ensures KeysInv(Step(s, action))
  {
    hide Unique, CaseStep, CaseInv, Commits, Refused, Shaped;
    var s' := Step(s, action);
    StepKeepsUnique(s, action);
    StepKeepsInv(s, action);
    EmptyShape();
    forall intent | intent in s'.cases
      ensures Shaped(s'.cases[intent])
    {
      if intent in s.cases && s'.cases[intent] != s.cases[intent] {
        ShapedStep(s.cases[intent], Admitted(s, action), s.clock);
      }
    }
  }

  lemma {:induction false} RunKeepsKeys(clock: Instant, actions: seq<Action>)
    ensures KeysInv(Run(Empty(clock), actions))
  {
    if actions != [] {
      RunKeepsKeys(clock, actions[..|actions| - 1]);
      StepKeepsKeys(Run(Empty(clock), actions[..|actions| - 1]), actions[|actions| - 1]);
    }
  }

  /** On every run: of all unsent deliveries in the table at most one is from any one provider. */
  lemma OneUnsentPerProvider(clock: Instant, actions: seq<Action>, i: IntentId, x: Channel, j: IntentId, y: Channel)
    requires var s := Run(Empty(clock), actions);
             && IsRow(s, i, x) && s.cases[i].deliveries[x].state != Sent
             && IsRow(s, j, y) && s.cases[j].deliveries[y].state != Sent
             && KeyAt(s, i, x).provider == KeyAt(s, j, y).provider
    ensures i == j && x == y
  {
    RunKeepsKeys(clock, actions);
    var s := Run(Empty(clock), actions);
    assert Shaped(s.cases[i]) && Shaped(s.cases[j]);
    assert KeyAt(s, i, x) == KeyAt(s, j, y);
  }

  // ------------------------------------------------------------------ closed rows stand for ever

  // Sent, withheld or dead: no step touches the row again.
  predicate IsClosed(s: Tables, intent: IntentId, channel: Channel) {
    IsRow(s, intent, channel) && !Open(s.cases[intent].deliveries[channel].state)
  }

  lemma ClosedStep(s: Tables, action: Action, intent: IntentId, channel: Channel)
    requires Inv(s) && IsClosed(s, intent, channel)
    ensures IsClosed(Step(s, action), intent, channel)
    ensures Step(s, action).cases[intent].deliveries[channel] == s.cases[intent].deliveries[channel]
  {
    hide Commits, Standing, Refused, CaseStep, CaseInv;
    var c := s.cases[intent];
    assert CaseInv(c);
    ClosedCaseStep(c, Admitted(s, action), s.clock, channel);
  }

  lemma ClosedCaseStep(c: Case, action: Action, now: Instant, channel: Channel)
    requires CaseInv(c) && channel in c.deliveries && !Open(c.deliveries[channel].state)
    ensures var c' := CaseStep(c, action, now);
            channel in c'.deliveries && c'.deliveries[channel] == c.deliveries[channel]
  {
    hide *;
    match action {
      case ClaimDelivery(_, _, _) | Accept(_, _, _) | Reject(_, _, _, _) => ClosedIsNotHeld(c, action, now, channel);
      case Prepare(_, _, _) => ClosedIsPrepared(c, action, now, channel);
      case _ => MostStepsLeaveRowsAlone(c, action, now);
    }
  }

  lemma ClosedIsNotHeld(c: Case, action: Action, now: Instant, channel: Channel)
    requires channel in c.deliveries && !Open(c.deliveries[channel].state)
    requires action.ClaimDelivery? || action.Accept? || action.Reject?
    ensures var c' := CaseStep(c, action, now);
            channel in c'.deliveries && c'.deliveries[channel] == c.deliveries[channel]
  {
  }

  lemma ClosedIsPrepared(c: Case, action: Action, now: Instant, channel: Channel)
    requires CaseInv(c) && channel in c.deliveries && action.Prepare?
    ensures CaseStep(c, action, now) == c
  {
    hide AnyOpen, AnyDead, AnySendable, ConsiderAll;
  }

  lemma {:induction false} ClosedStays(s: Tables, actions: seq<Action>, intent: IntentId, channel: Channel)
    requires Inv(s) && IsClosed(s, intent, channel)
    ensures IsClosed(Run(s, actions), intent, channel)
    ensures Run(s, actions).cases[intent].deliveries[channel] == s.cases[intent].deliveries[channel]
  {
    hide Step;
    if actions != [] {
      ClosedStays(s, actions[..|actions| - 1], intent, channel);
      RunKeepsInv(s, actions[..|actions| - 1]);
      ClosedStep(Run(s, actions[..|actions| - 1]), actions[|actions| - 1], intent, channel);
    }
  }

  /** Once a row without a message id is withheld, dead or sent, every later preparation that
      would store a row of the same provider, for whatever intent and recipient, is rolled back and
      makes its intent a dead letter. */
  lemma ClosedRowsBlock(clock: Instant, before: seq<Action>, after: seq<Action>, intent: IntentId, channel: Channel,
                       process: nat, other: IntentId, terms: Terms)
    requires IsClosed(Run(Empty(clock), before), intent, channel)
    requires KeyAt(Run(Empty(clock), before), intent, channel).message.None?
    requires var s := Run(Empty(clock), before + after);
             && IsPreparing(s, process, other)
             && KeyAt(Run(Empty(clock), before), intent, channel).provider in
                Stored(s.cases[other], terms, |s.cases[other].channels|).Values
    ensures var s := Run(Empty(clock), before + after);
            var result := Step(s, Prepare(process, other, Prepared(terms))).cases[other];
            result.status == DeadLetter && result.deliveries == map[]
  {
    hide *;
    var s := Run(Empty(clock), before + after);
    StartsWithInv(clock, before);
    RunAppend(Empty(clock), before, after);
    ClosedStays(Run(Empty(clock), before), after, intent, channel);
    SameRowSameKey(Run(Empty(clock), before), s, intent, channel);
    ClosedStands(s, intent, channel, process, other);
    StandingBlocks(s, process, other, terms, KeyAt(s, intent, channel).provider);
  }

  lemma SameRowSameKey(s: Tables, s': Tables, intent: IntentId, channel: Channel)
    requires IsClosed(s, intent, channel) && IsClosed(s', intent, channel)
    requires s'.cases[intent].deliveries[channel] == s.cases[intent].deliveries[channel]
    ensures IsRow(s, intent, channel) && IsRow(s', intent, channel)
    ensures KeyAt(s', intent, channel) == KeyAt(s, intent, channel)
  {
  }

  /** Nobody ever claims or sends what the recipient had disabled, on any continuation. */
  lemma DisabledIsNeverSent(s: Tables, process: nat, intent: IntentId, terms: Terms, channel: Channel,
                            actions: seq<Action>)
    requires Inv(s) && Preparable(s, process, intent, terms)
    requires AlwaysWants(s.cases[intent], terms, channel, Disabled)
    ensures var later := Run(Step(s, Prepare(process, intent, Prepared(terms))), actions);
            && IsRow(later, intent, channel)
            && var d := later.cases[intent].deliveries[channel];
               d.state == Withheld && d.attempts == 0 && d.leaseOwner.None? && d.key.message.None?
  {
    var prepared := Step(s, Prepare(process, intent, Prepared(terms)));
    StepKeepsInv(s, Prepare(process, intent, Prepared(terms)));
    WantedInPreparation(s, process, intent, terms, channel, Disabled);
    PreferencesAreRespected(s, process, intent, terms, channel, Disabled);
    IsAfter(s, process, intent, terms);
    hide Step, Inv, Preparable, AlwaysWants, AfterPreparing, IsFree;
    ClosedStays(prepared, actions, intent, channel);
  }

  lemma StartsWithInv(clock: Instant, actions: seq<Action>)
    ensures Inv(Run(Empty(clock), actions))
  {
    RunKeepsKeys(clock, actions);
  }

  lemma StandingBlocks(s: Tables, process: nat, intent: IntentId, terms: Terms, p: ProviderKey)
    requires IsPreparing(s, process, intent) && p in Standing(s.cases, intent)
    requires p in Stored(s.cases[intent], terms, |s.cases[intent].channels|).Values
    ensures var result := Step(s, Prepare(process, intent, Prepared(terms))).cases[intent];
            result.status == DeadLetter && result.deliveries == map[]
  {
    var c := s.cases[intent];
    hide Step, CaseInv, Stored, Standing;
    CommitsExactlyWhen(s, process, intent, terms);
    var x :| x in Stored(c, terms, |c.channels|) && Stored(c, terms, |c.channels|)[x] == p;
    assert !IsFree(s, intent, terms);
  }

  lemma ClosedStands(s: Tables, intent: IntentId, channel: Channel, process: nat, other: IntentId)
    requires IsClosed(s, intent, channel) && KeyAt(s, intent, channel).message.None? && IsPreparing(s, process, other)
    ensures IsRow(s, intent, channel)
    ensures KeyAt(s, intent, channel).provider in Standing(s.cases, other)
  {
    assert intent != other;
    assert KeyAt(s, intent, channel).provider in Unsent(s.cases[intent].deliveries);
  }

  /** So without crashes at most two intents are ever stranded: each holds one of the two keys
      that withheld rows can have. */
  lemma AtMostTwoStranded(clock: Instant, actions: seq<Action>, a: IntentId, b: IntentId, c: IntentId)
    requires CrashFree(actions) && a != b && b != c && a != c
    requires var s := Run(Empty(clock), actions); {a, b, c} <= s.cases.Keys
    ensures var s := Run(Empty(clock), actions);
            !(Stranded(s.cases[a]) && Stranded(s.cases[b]) && Stranded(s.cases[c]))
  {
    var s := Run(Empty(clock), actions);
    RunKeepsKeys(clock, actions);
    RunKeepsInv(Empty(clock), actions);
    assert a in {a, b, c} && b in {a, b, c} && c in {a, b, c};
    hide Run, CaseInv, Attended;
    if Stranded(s.cases[a]) && Stranded(s.cases[b]) && Stranded(s.cases[c]) {
      var x := StrandedHolds(s, a);
      var y := StrandedHolds(s, b);
      var z := StrandedHolds(s, c);
    }
  }

  lemma StrandedHolds(s: Tables, intent: IntentId) returns (x: Channel)
    requires KeysInv(s) && AllAttended(s) && intent in s.cases && Stranded(s.cases[intent])
    ensures IsRow(s, intent, x) && KeyAt(s, intent, x) in
            {RowKey("preference", None), RowKey("suppression", None)}
  {
    var c := s.cases[intent];
    assert Attended(c) && Shaped(c) && c.deliveries != map[];
    x :| x in c.deliveries;
    assert c.deliveries[x].state == Withheld;
  }
}
