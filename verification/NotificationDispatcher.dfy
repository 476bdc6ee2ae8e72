// The dispatcher's statements and its polling round.
module NotificationDispatcher {
  import opened Wrappers
  import opened Notifications
  import opened Replies
  import Retry

  // A step of another process than this one.
  predicate IsForeign(action: Action, process: nat) {
    match action
    case ClaimIntent(p, _) => p != process
    case Prepare(p, _, _) => p != process
    case Accept(p, _, _) => p != process
    case Reject(p, _, _, _) => p != process
    case Finalize(p, _) => p != process
    case Crash(p, _) => p != process
    case _ => true
  }

  predicate Foreign(actions: seq<Action>, process: nat) {
    forall i :: 0 <= i < |actions| ==> IsForeign(actions[i], process)
  }

  // The cases this process is preparing, and those it owes one finalisation.
  predicate Mine(s: Tables, process: nat, preparing: set<IntentId>, owing: set<IntentId>) {
    && preparing <= s.cases.Keys && owing <= s.cases.Keys
    && forall intent :: intent in s.cases ==>
         && (s.cases[intent].preparing == Some(process) <==> intent in preparing)
         && s.cases[intent].owed[process] == if intent in owing then 1 else 0
  }

  lemma ForeignCaseStep(c: Case, action: Action, now: Instant, process: nat)
    requires CaseInv(c) && IsForeign(action, process)
    ensures CaseStep(c, action, now).preparing == Some(process) <==> c.preparing == Some(process)
    ensures CaseStep(c, action, now).owed[process] == c.owed[process]
  {
    hide AnyOpen, AnyDead, AnySendable, ConsiderAll, StatusAfter, Claimable, Holds;
  }

  lemma ForeignStep(s: Tables, action: Action, process: nat, preparing: set<IntentId>, owing: set<IntentId>)
    requires Inv(s) && IsForeign(action, process) && Mine(s, process, preparing, owing)
    ensures Mine(Step(s, action), process, preparing, owing)
  {
    hide CaseStep, CaseInv, Commits, Refused;
    if !action.Tick? && Target(action).value in s.cases {
      ForeignCaseStep(s.cases[Target(action).value], Admitted(s, action), s.clock, process);
    }
  }

  lemma {:induction false} OthersLeaveMineAlone(s: Tables, actions: seq<Action>, process: nat,
                                                preparing: set<IntentId>, owing: set<IntentId>)
    requires Inv(s) && Foreign(actions, process) && Mine(s, process, preparing, owing)
    ensures Mine(Run(s, actions), process, preparing, owing) && Inv(Run(s, actions))
  {
    RunKeepsInv(s, actions);
    if actions != [] {
      var shorter := actions[..|actions| - 1];
      OthersLeaveMineAlone(s, shorter, process, preparing, owing);
      ForeignStep(Run(s, shorter), actions[|actions| - 1], process, preparing, owing);
    }
  }

  // Inv by one step.
  lemma OwnStep(s: Tables, action: Action)
    requires Inv(s)
    ensures Inv(Step(s, action))
  {
    StepKeepsInv(s, action);
  }

  // What holds of this process before holds after a change of one case.
  lemma MineAfter(s: Tables, intent: IntentId, c: Case, process: nat, preparing: set<IntentId>, owing: set<IntentId>,
                  preparing': set<IntentId>, owing': set<IntentId>)
    requires intent in s.cases && Mine(s, process, preparing, owing)
    requires preparing' - {intent} == preparing - {intent} && owing' - {intent} == owing - {intent}
    requires c.preparing == Some(process) <==> intent in preparing'
    requires c.owed[process] == if intent in owing' then 1 else 0
    ensures Mine(s.(cases := s.cases[intent := c]), process, preparing', owing')
  {
    forall i
      ensures i != intent ==> (i in preparing' <==> i in preparing) && (i in owing' <==> i in owing)
    {
      assert i in preparing' - {intent} <==> i in preparing - {intent};
      assert i in owing' - {intent} <==> i in owing - {intent};
    }
  }

  lemma MineHere(s: Tables, process: nat, preparing: set<IntentId>, owing: set<IntentId>, intent: IntentId)
    requires intent in s.cases && Mine(s, process, preparing, owing)
    ensures s.cases[intent].preparing == Some(process) <==> intent in preparing
    ensures s.cases[intent].owed[process] == if intent in owing then 1 else 0
  {
  }

  lemma MineIsThere(s: Tables, process: nat, preparing: set<IntentId>, owing: set<IntentId>, intent: IntentId)
    requires Mine(s, process, preparing, owing) && (intent in preparing || intent in owing)
    ensures intent in s.cases
  {
  }

  lemma SettledCase(c: Case, action: Action, now: Instant, process: nat)
    requires (action.Accept? || action.Reject?) && action.process == process
    ensures var c' := CaseStep(c, action, now);
            && c'.preparing == c.preparing
            && c'.owed[process] == c.owed[process] +
               if Holds(c, action.ticket) && (action.Accept? || action.deadLetter) then 1 else 0
  {
    hide Holds, ConsiderAll, Finalized;
  }

  lemma SettledMine(s: Tables, action: Action, process: nat, ticket: Ticket)
    requires Mine(s, process, {}, {})
    requires (action.Accept? || action.Reject?) && action.process == process && action.ticket == ticket
    ensures var final := Held(s, ticket) && !Refused(s, action) && (action.Accept? || action.deadLetter);
            && (final ==> Mine(Step(s, action), process, {}, {ticket.intent}))
            && (!final ==> Mine(Step(s, action), process, {}, {}))
  {
    hide Mine, CaseStep, Holds, Refused, Commits;
    if ticket.intent in s.cases && !Refused(s, action) {
      var c := s.cases[ticket.intent];
      MineHere(s, process, {}, {}, ticket.intent);
      SettledCase(c, action, s.clock, process);
      MineAfter(s, ticket.intent, CaseStep(c, action, s.clock), process, {}, {}, {},
          if Holds(c, ticket) && (action.Accept? || action.deadLetter) then {ticket.intent} else {});
    }
  }

  lemma FinalizedCase(c: Case, process: nat, intent: IntentId, now: Instant)
    requires c.owed[process] == 1
    ensures var c' := CaseStep(c, Finalize(process, intent), now);
            c'.preparing == c.preparing && c'.owed[process] == 0
  {
    hide AnyOpen, AnyDead, ConsiderAll;
  }

  lemma FinalizedMine(s: Tables, process: nat, intent: IntentId)
    requires Mine(s, process, {}, {intent})
    ensures intent in s.cases && process in s.cases[intent].owed
    ensures Mine(Step(s, Finalize(process, intent)), process, {}, {})
  {
    hide Mine, CaseStep, Commits;
    assert intent in {intent};
    MineIsThere(s, process, {}, {intent}, intent);
    MineHere(s, process, {}, {intent}, intent);
    FinalizedCase(s.cases[intent], process, intent, s.clock);
    MineAfter(s, intent, CaseStep(s.cases[intent], Finalize(process, intent), s.clock), process, {}, {intent}, {}, {});
  }

  lemma GivenUpCase(c: Case, process: nat, intent: IntentId, now: Instant)
    ensures var c' := CaseStep(c, Crash(process, intent), now);
            c'.preparing != Some(process) && c'.owed[process] == 0
  {
    hide ConsiderAll, Finalized;
  }

  // What it owes it may also give up.
  lemma GivenUpMine(s: Tables, process: nat, intent: IntentId)
    requires Mine(s, process, {}, {intent})
    ensures Mine(Step(s, Crash(process, intent)), process, {}, {})
  {
    hide Mine, CaseStep, Commits;
    assert intent in {intent};
    MineIsThere(s, process, {}, {intent}, intent);
    GivenUpCase(s.cases[intent], process, intent, s.clock);
    MineAfter(s, intent, CaseStep(s.cases[intent], Crash(process, intent), s.clock), process, {}, {intent}, {}, {});
  }

  // ------------------------------------------------------------------ what a round must do

  // The dispatcher's settings; `digest` is the first two bytes of the jitter hash.
  datatype Policy = Policy(process: nat, maximumAttempts: nat, retryBaseSeconds: nat, retryMaximumSeconds: nat,
    digest: Ticket -> nat)

  predicate VisitsIntents(claims: seq<Action>, process: nat, visible: seq<IntentId>) {
    |claims| <= |visible| && forall i :: 0 <= i < |claims| ==> claims[i] == Action.ClaimIntent(process, visible[i])
  }

  predicate IsPending(s: Tables, intent: IntentId) {
    intent in s.cases && s.cases[intent].status == Pending && s.cases[intent].scheduledAt <= s.clock
  }

  // The intents that a run of claims takes.
  function Taken(s: Tables, claims: seq<Action>): seq<IntentId> {
    if claims == [] then []
    else
      var earlier, last := claims[..|claims| - 1], claims[|claims| - 1];
      Taken(s, earlier) + if last.ClaimIntent? && IsPending(Run(s, earlier), last.intent) then [last.intent] else []
  }

  lemma NothingTaken(s: Tables)
    ensures Taken(s, []) == [] && Remaining([], 0) == {} && DistinctIds([])
  {
  }

  lemma TakenNext(s: Tables, claims: seq<Action>, process: nat, intent: IntentId)
    ensures Taken(s, claims + [Action.ClaimIntent(process, intent)]) ==
            Taken(s, claims) + if IsPending(Run(s, claims), intent) then [intent] else []
    ensures Run(s, claims + [Action.ClaimIntent(process, intent)]) ==
            Step(Run(s, claims), Action.ClaimIntent(process, intent))
  {
    assert (claims + [Action.ClaimIntent(process, intent)])[..|claims|] == claims;
  }

  // How the preparation of a case ends: whatever throws in it rolls it back.
  function Preparing(c: Case, lookup: Lookup): Preparation {
    if !lookup.templateActive then TemplateMissing
    else if lookup.throwsAt.Some? && lookup.throwsAt.value <= |c.channels| then RolledBack
    else Prepared(lookup.terms)
  }

  function PreparationAt(s: Tables, intent: IntentId, lookup: Lookup): Preparation {
    if intent in s.cases then Preparing(s.cases[intent], lookup) else TemplateMissing
  }

  // The preparations of the intents, one after the other, with others before each.
  function Preparations(s: Tables, process: nat, intents: seq<IntentId>, lookups: IntentId -> Lookup,
                        others: nat -> seq<Action>): seq<Action> {
    if intents == [] then []
    else
      var n := |intents| - 1;
      var trace := Preparations(s, process, intents[..n], lookups, others);
      trace + PreparationTurn(Run(s, trace), process, intents[n], lookups(intents[n]), others(n))
  }

  function PreparationTurn(s: Tables, process: nat, intent: IntentId, lookup: Lookup,
                           meanwhile: seq<Action>): seq<Action> {
    meanwhile + [Prepare(process, intent, PreparationAt(Run(s, meanwhile), intent, lookup))]
  }

  lemma PreparationsNext(s: Tables, process: nat, intents: seq<IntentId>, intent: IntentId,
                         lookups: IntentId -> Lookup, others: nat -> seq<Action>)
    ensures var trace := Preparations(s, process, intents, lookups, others);
            Preparations(s, process, intents + [intent], lookups, others) ==
            trace + PreparationTurn(Run(s, trace), process, intent, lookups(intent), others(|intents|))
  {
    hide Run, PreparationTurn;
    assert (intents + [intent])[..|intents|] == intents;
  }

  predicate VisitsDeliveries(claims: seq<Action>, workerId: WorkerId, visible: seq<(IntentId, Channel)>) {
    |claims| <= |visible| &&
    forall i :: 0 <= i < |claims| ==> claims[i] == Action.ClaimDelivery(workerId, visible[i].0, visible[i].1)
  }

  // What a claim of a delivery returns.
  function TicketFor(s: Tables, owner: WorkerId, intent: IntentId, channel: Channel): Option<Ticket> {
    if intent in s.cases && channel in s.cases[intent].deliveries &&
        Claimable(s.cases[intent].deliveries[channel], s.clock)
    then Some(Ticket(intent, channel, s.cases[intent].deliveries[channel].attempts + 1, owner)) else None
  }

  // The tickets that a run of claims wins.
  function Won(s: Tables, claims: seq<Action>): seq<Ticket> {
    if claims == [] then []
    else
      var earlier, last := claims[..|claims| - 1], claims[|claims| - 1];
      var ticket := if last.ClaimDelivery? then TicketFor(Run(s, earlier), last.owner, last.intent,
          last.channel) else None;
      Won(s, earlier) + if ticket.Some? then [ticket.value] else []
  }

  lemma NothingWon(s: Tables)
    ensures Won(s, []) == []
  {
  }

  lemma WonNext(s: Tables, claims: seq<Action>, owner: WorkerId, intent: IntentId, channel: Channel)
    ensures var ticket := TicketFor(Run(s, claims), owner, intent, channel);
            Won(s, claims + [Action.ClaimDelivery(owner, intent, channel)]) == Won(s, claims) +
                if ticket.Some? then [ticket.value] else []
    ensures Run(s, claims + [Action.ClaimDelivery(owner, intent, channel)]) ==
            Step(Run(s, claims), Action.ClaimDelivery(owner, intent, channel))
  {
    hide TicketFor;
    assert (claims + [Action.ClaimDelivery(owner, intent, channel)])[..|claims|] == claims;
  }

  // What a provider does with a delivery.
  datatype Answer = Accepts(message: Option<MessageId>) | Rejects | Throws

  // Which replies to a delivery's settlement and to its finalisation are heard.
  datatype Heard = Heard(settlement: Reply, finalisation: Reply)

  // What everybody else does during the deliveries of a round, the providers' answers and which
  // replies are heard.
  datatype World = World(others: nat -> seq<Action>, answers: Ticket -> Answer, heard: Ticket -> Heard)

  // How a turn of the delivery loop ends: counted as sent, not counted, or with an exception.
  datatype Ending = Counted | NotCounted | Thrown

  // The settlement that the provider's answer calls for.
  function Settlement(policy: Policy, ticket: Ticket, answer: Answer, now: Instant): Action {
    var delay := Retry.DelaySeconds(ticket.attempt, policy.retryBaseSeconds, policy.retryMaximumSeconds,
        policy.digest(ticket));
    if answer.Accepts? then Accept(policy.process, ticket, answer.message)
    else Reject(policy.process, ticket, Retry.NextAttemptAt(now, delay), ticket.attempt >= policy.maximumAttempts)
  }

  predicate Held(s: Tables, ticket: Ticket) {
    ticket.intent in s.cases && Holds(s.cases[ticket.intent], ticket)
  }

  // Whether the settlement takes effect and calls for a finalisation.
  predicate IsFinal(policy: Policy, s: Tables, ticket: Ticket, answer: Answer) {
    && Held(s, ticket) && !Refused(s, Settlement(policy, ticket, answer, s.clock))
    && (answer.Accepts? || ticket.attempt >= policy.maximumAttempts)
  }

  /** One delivery: how it ends, and its run. A finalisation follows a final settlement, after
      whatever others do before it, and is given up when an exception comes in between. */
  function DeliveryTurn(policy: Policy, s: Tables, ticket: Ticket, answer: Answer, heard: Heard,
                        meanwhile: seq<Action>): (Ending, seq<Action>)
  {
    var settlement := Settlement(policy, ticket, answer, s.clock);
    var giveUp := Crash(policy.process, ticket.intent);
    if answer.Throws? || heard.settlement == LostBeforeCommit then (Thrown, [])
    else if Refused(s, settlement) then (Thrown, [settlement])
    else if heard.settlement == LostAfterCommit then
      (Thrown, [settlement] + if IsFinal(policy, s, ticket, answer) then [giveUp] else [])
    else if !IsFinal(policy, s, ticket, answer) then (NotCounted, [settlement])
    else
      var last := if heard.finalisation == LostBeforeCommit then giveUp else Finalize(policy.process, ticket.intent);
      (if heard.finalisation != Answered then Thrown else if answer.Accepts? then Counted else NotCounted,
       [settlement] + (meanwhile + [last]))
  }

  function CountSent(endings: seq<Ending>): nat {
    if endings == [] then 0
    else CountSent(endings[..|endings| - 1]) + if endings[|endings| - 1] == Counted then 1 else 0
  }

  lemma CountSentNext(endings: seq<Ending>, ending: Ending)
    ensures CountSent(endings + [ending]) == CountSent(endings) + if ending == Counted then 1 else 0
  {
    assert (endings + [ending])[..|endings|] == endings;
  }

  // The loop goes on to the next of its deliveries exactly while no turn throws.
  predicate EndsRightly(endings: seq<Ending>, deliveries: nat, thrown: bool) {
    && |endings| <= deliveries
    && (forall i :: 0 <= i < |endings| - 1 ==> endings[i] != Thrown)
    && (thrown <==> endings != [] && endings[|endings| - 1] == Thrown)
    && (!thrown ==> |endings| == deliveries)
  }

  function DeliveryTurns(policy: Policy, s: Tables, tickets: seq<Ticket>, world: World): (seq<Ending>, seq<Action>) {
    if tickets == [] then ([], [])
    else
      var n := |tickets| - 1;
      var (endings, trace) := DeliveryTurns(policy, s, tickets[..n], world);
      var before := trace + world.others(2 * n);
      var (ending, turn) := NextTurn(policy, Run(s, before), tickets[n], n, world);
      (endings + [ending], before + turn)
  }

  function NextTurn(policy: Policy, s: Tables, ticket: Ticket, n: nat, world: World): (Ending, seq<Action>) {
    DeliveryTurn(policy, s, ticket, world.answers(ticket), world.heard(ticket), world.others(2 * n + 1))
  }

  lemma DeliveryTurnsNext(policy: Policy, s: Tables, tickets: seq<Ticket>, ticket: Ticket, world: World,
                          endings: seq<Ending>, before: seq<Action>, ending: Ending, turn: seq<Action>)
    requires endings == DeliveryTurns(policy, s, tickets, world).0
    requires before == DeliveryTurns(policy, s, tickets, world).1 + world.others(2 * |tickets|)
    requires (ending, turn) == NextTurn(policy, Run(s, before), ticket, |tickets|, world)
    ensures DeliveryTurns(policy, s, tickets + [ticket], world) == (endings + [ending], before + turn)
  {
    hide Run, NextTurn;
    assert (tickets + [ticket])[..|tickets|] == tickets;
  }

  // ------------------------------------------------------------------ rounds have no crashes of their own

  /** A round crashes nothing unless others do. */
  lemma {:induction false} PreparationsAreCrashFree(s: Tables, process: nat, intents: seq<IntentId>,
                                                    lookups: IntentId -> Lookup, others: nat -> seq<Action>)
    requires forall n: nat :: CrashFree(others(n))
    ensures CrashFree(Preparations(s, process, intents, lookups, others))
  {
    if intents != [] {
      PreparationsAreCrashFree(s, process, intents[..|intents| - 1], lookups, others);
      assert CrashFree(others(|intents| - 1));
    }
  }

  // All replies to the tickets' settlements and finalisations are heard.
  predicate AllHeard(tickets: seq<Ticket>, world: World) {
    forall t :: t in tickets ==> world.heard(t) == Heard(Answered, Answered)
  }

  lemma {:induction false} DeliveriesAreCrashFree(policy: Policy, s: Tables, tickets: seq<Ticket>, world: World)
    requires AllHeard(tickets, world) && forall n: nat :: CrashFree(world.others(n))
    ensures CrashFree(DeliveryTurns(policy, s, tickets, world).1)
  {
    if tickets != [] {
      var n := |tickets| - 1;
      DeliveriesAreCrashFree(policy, s, tickets[..n], world);
      var (_, trace) := DeliveryTurns(policy, s, tickets[..n], world);
      var before := trace + world.others(2 * n);
      CrashFreeParts(trace, world.others(2 * n));
      TurnIsCrashFree(policy, Run(s, before), tickets[n], n, world);
      CrashFreeParts(before, NextTurn(policy, Run(s, before), tickets[n], n, world).1);
    }
  }

  lemma TurnIsCrashFree(policy: Policy, s: Tables, ticket: Ticket, n: nat, world: World)
    requires world.heard(ticket) == Heard(Answered, Answered) && CrashFree(world.others(2 * n + 1))
    ensures CrashFree(NextTurn(policy, s, ticket, n, world).1)
  {
    hide Run, IsFinal, Refused;
  }

  lemma CrashFreeParts(before: seq<Action>, after: seq<Action>)
    ensures CrashFree(before) && CrashFree(after) ==> CrashFree(before + after)
  {
  }

  lemma RunNothing(s: Tables)
    ensures Run(s, []) == s
  {
  }

  lemma RunOne(s: Tables, action: Action)
    ensures Run(s, [action]) == Step(s, action)
  {
    RunStep(s, [], action);
    assert [] + [action] == [action];
  }

  // The delivery loop has taken its first i turns, from tables s to tables now.
  predicate Delivering(policy: Policy, s: Tables, now: Tables, tickets: seq<Ticket>, i: nat, world: World,
                       endings: seq<Ending>, trace: seq<Action>, sent: nat)
    requires i <= |tickets|
  {
    && (endings, trace) == DeliveryTurns(policy, s, tickets[..i], world)
    && |endings| == i && sent == CountSent(endings)
    && Inv(now) && Mine(now, policy.process, {}, {}) && now == Run(s, trace)
  }

  lemma StartDelivering(policy: Policy, s: Tables, tickets: seq<Ticket>, world: World)
    requires Inv(s) && Mine(s, policy.process, {}, {})
    ensures Delivering(policy, s, s, tickets, 0, world, [], [], 0) && NoneThrown([])
  {
  }

  lemma Delivered(policy: Policy, s: Tables, now: Tables, tickets: seq<Ticket>, i: nat, world: World,
                  endings: seq<Ending>, trace: seq<Action>, sent: nat)
    requires i <= |tickets| && Delivering(policy, s, now, tickets, i, world, endings, trace, sent)
    ensures (endings, trace) == DeliveryTurns(policy, s, tickets[..i], world)
    ensures |endings| == i && sent == CountSent(endings)
    ensures Inv(now) && Mine(now, policy.process, {}, {}) && now == Run(s, trace)
  {
  }

  lemma DeliverNext(policy: Policy, s: Tables, now: Tables, after: Tables, tickets: seq<Ticket>, i: nat, world: World,
                    endings: seq<Ending>, trace: seq<Action>, sent: nat, ending: Ending, turn: seq<Action>)
    requires i < |tickets| && Delivering(policy, s, now, tickets, i, world, endings, trace, sent)
    requires (ending, turn) == NextTurn(policy, Run(now, world.others(2 * i)), tickets[i], i, world)
    requires after == Run(Run(now, world.others(2 * i)), turn) && Inv(after) && Mine(after, policy.process, {}, {})
    ensures Delivering(policy, s, after, tickets, i + 1, world, endings + [ending],
                       trace + world.others(2 * i) + turn, if ending == Counted then sent + 1 else sent)
  {
    hide *;
    assert tickets[..i + 1] == tickets[..i] + [tickets[i]];
    Delivered(policy, s, now, tickets, i, world, endings, trace, sent);
    RunTwice(s, trace, world.others(2 * i), turn);
    DeliveryTurnsNext(policy, s, tickets[..i], tickets[i], world, endings, trace + world.others(2 * i), ending, turn);
    CountSentNext(endings, ending);
    Delivers(policy, s, after, tickets, i + 1, world, endings + [ending], trace + world.others(2 * i) + turn,
        if ending == Counted then sent + 1 else sent);
  }

  lemma RunTwice(s: Tables, trace: seq<Action>, a: seq<Action>, b: seq<Action>)
    ensures Run(s, trace + a) == Run(Run(s, trace), a)
    ensures Run(s, trace + a + b) == Run(Run(Run(s, trace), a), b)
  {
    RunAppend(s, trace, a);
    RunAppend(s, trace + a, b);
  }

  lemma Delivers(policy: Policy, s: Tables, now: Tables, tickets: seq<Ticket>, i: nat, world: World,
                 endings: seq<Ending>, trace: seq<Action>, sent: nat)
    requires i <= |tickets| && (endings, trace) == DeliveryTurns(policy, s, tickets[..i], world)
    requires |endings| == i && sent == CountSent(endings)
    requires Inv(now) && Mine(now, policy.process, {}, {}) && now == Run(s, trace)
    ensures Delivering(policy, s, now, tickets, i, world, endings, trace, sent)
  {
  }

  predicate NoneThrown(endings: seq<Ending>) {
    forall i :: 0 <= i < |endings| ==> endings[i] != Thrown
  }

  lemma EndsNext(endings: seq<Ending>, ending: Ending, deliveries: nat)
    requires NoneThrown(endings) && |endings| < deliveries
    ensures if ending == Thrown then EndsRightly(endings + [ending], deliveries, true)
            else NoneThrown(endings + [ending])
  {
  }

  lemma EndsAfterAll(endings: seq<Ending>)
    requires NoneThrown(endings)
    ensures EndsRightly(endings, |endings|, false)
  {
  }

  // The preparation loop has taken its first i turns, from tables s to tables now.
  predicate PreparingAll(s: Tables, now: Tables, process: nat, intents: seq<IntentId>, i: nat,
                         lookups: IntentId -> Lookup,
                         others: nat -> seq<Action>, trace: seq<Action>)
    requires i <= |intents|
  {
    && trace == Preparations(s, process, intents[..i], lookups, others)
    && Inv(now) && Mine(now, process, Remaining(intents, i), {}) && now == Run(s, trace)
  }

  lemma PrepareTurn(s: Tables, now: Tables, after: Tables, process: nat, intents: seq<IntentId>, i: nat,
                    lookups: IntentId -> Lookup, others: nat -> seq<Action>, trace: seq<Action>, turn: seq<Action>)
    requires i < |intents| && PreparingAll(s, now, process, intents, i, lookups, others, trace)
    requires turn == PreparationTurn(now, process, intents[i], lookups(intents[i]), others(i)) &&
             after == Run(now, turn)
    requires Inv(after) && Mine(after, process, Remaining(intents, i + 1), {})
    ensures PreparingAll(s, after, process, intents, i + 1, lookups, others, trace + turn)
  {
    hide Step, Run, Inv, Mine, PreparationTurn, Preparations, Remaining;
    assert intents[..i + 1] == intents[..i] + [intents[i]];
    PreparationsNext(s, process, intents[..i], intents[i], lookups, others);
    RunAppend(s, trace, turn);
  }

  class Dispatcher {
    var cases: map<IntentId, Case>
    var clock: Instant
    const process: nat
    const workerId: WorkerId
    const maximumAttempts: nat
    const retryBaseSeconds: nat
    const retryMaximumSeconds: nat

    ghost function Model(): Tables
      reads this
    {
      Tables(cases, clock)
    }

    constructor (now: Instant, process: nat, workerId: WorkerId, maximumAttempts: nat, retryBaseSeconds: nat,
                 retryMaximumSeconds: nat)
      ensures Model() == Empty(now)
      ensures this.process == process && this.workerId == workerId && this.maximumAttempts == maximumAttempts
    {
      this.process, this.cases, this.clock, this.workerId, this.maximumAttempts := process, map[], now, workerId,
          maximumAttempts;
      this.retryBaseSeconds, this.retryMaximumSeconds := retryBaseSeconds, retryMaximumSeconds;
    }

    // The settings and a digest, as the specification sees them.
    function Rules(digest: Ticket -> nat): Policy {
      Policy(process, maximumAttempts, retryBaseSeconds, retryMaximumSeconds, digest)
    }

    method ClaimIntent(intent: IntentId) returns (claimed: bool)
      modifies this`cases
      ensures Model() == Step(old(Model()), Action.ClaimIntent(process, intent))
      ensures claimed <==> IsPending(old(Model()), intent)
    {
      claimed := intent in cases && cases[intent].status == Pending && cases[intent].scheduledAt <= clock;
      if claimed {
        cases := cases[intent := cases[intent].(status := Processing, preparing := Some(process))];
      }
    }

    /** The preparation transaction; when anything in it throws, nothing of it commits and the
        catch block makes the intent a dead letter. */
    method PrepareIntent(intent: IntentId, lookup: Lookup)
      returns (ghost preparation: Preparation)
      requires intent in cases && cases[intent].preparing == Some(process)
      modifies this`cases
      ensures preparation == Preparing(old(cases)[intent], lookup)
      ensures Model() == Step(old(Model()), Prepare(process, intent, preparation))
    {
      hide Step, ConsiderAll, Standing, Unsent, RequestThrows, ProviderOf;
      var row, terms := cases[intent], lookup.terms;
      preparation := Preparing(row, lookup);
      if !lookup.templateActive {
        cases := cases[intent := row.(status := DeadLetter, preparing := None)];
        NoTemplate(old(Model()), process, intent);
        return;
      }
      var standing := Standing(cases, intent);
      var deliveries, digests := row.deliveries, row.digests;
      var immediate, suppressed, digested := 0, 0, 0;
      var thrown := false;
      NothingConsidered(row, terms, clock);
      for i := 0 to |row.channels|
        invariant cases == old(cases) && !thrown && NoRequestThrows(row, terms, standing, i, clock)
        invariant Tally(deliveries, digests, immediate, suppressed, digested) == ConsiderAll(row, terms, i, clock)
        invariant lookup.throwsAt.Some? ==> i <= lookup.throwsAt.value
      {
        var channel, preference := row.channels[i], PreferenceAt(terms.preferences, i);
        RequestNext(row, terms, standing, i, clock);
        if lookup.throwsAt == Some(i) {
          thrown := true;
          break;
        }
        if preference == Disabled {
          var provider := ProviderOf(terms, channel, Withhold);
          if channel !in deliveries && provider in standing + Unsent(deliveries) {
            thrown := true;
            break;
          }
          deliveries := Insert(deliveries, channel, Withheld, provider, clock);
          suppressed := suppressed + 1;
        } else if preference == Digest && (channel == Email || channel == Push) {
          digests := digests + {channel};
          digested := digested + 1;
        } else {
          var provider := ProviderOf(terms, channel, Decision.Deliver);
          if NoSender(terms, channel) || (channel !in deliveries && provider in standing + Unsent(deliveries)) {
            thrown := true;
            break;
          }
          var state := if channel in terms.screened then Withheld else Waiting;
          deliveries := Insert(deliveries, channel, state, provider, clock);
          immediate := immediate + 1;
        }
      }
      if thrown || lookup.throwsAt == Some(|row.channels|) {
        cases := cases[intent := row.(status := if row.status == Processing then DeadLetter else row.status,
                                      preparing := None)];
        RollsBack(old(Model()), process, intent, lookup);
        return;
      }
      var status := if immediate > 0 then Processing else if digested > 0 then Digested
                    else if suppressed > 0 then Suppressed else DeadLetter;
      cases := cases[intent := row.(deliveries := deliveries, digests := digests, status := status,
                                    preparing := None, immediate := immediate > 0)];
      Commit(old(Model()), process, intent, lookup);
    }

    method ClaimDelivery(intent: IntentId, channel: Channel) returns (ticket: Option<Ticket>)
      modifies this`cases
      ensures Model() == Step(old(Model()), Action.ClaimDelivery(workerId, intent, channel))
      ensures ticket == TicketFor(old(Model()), workerId, intent, channel)
      ensures ticket.Some? ==> Held(Model(), ticket.value)
    {
      ticket := None;
      if intent in cases {
        var row := cases[intent];
        if channel in row.deliveries && Claimable(row.deliveries[channel], clock) {
          var d := row.deliveries[channel];
          cases := cases[intent := row.(deliveries := row.deliveries[channel :=
            d.(state := InProgress, attempts := d.attempts + 1, leasedAt := Some(clock),
                leaseOwner := Some(workerId))])];
          ticket := Some(Ticket(intent, channel, d.attempts + 1, workerId));
        }
      }
    }

    method FinalizeIntent(intent: IntentId)
      requires intent in cases && process in cases[intent].owed
      modifies this`cases
      ensures Model() == Step(old(Model()), Finalize(process, intent))
    {
      var row := cases[intent];
      var open, dead := false, false;
      var channels := [Email, Sms, Push];
      for i := 0 to 3
        invariant cases == old(cases)
        invariant open <==>
                  exists k :: 0 <= k < i && channels[k] in row.deliveries && Open(row.deliveries[channels[k]].state)
        invariant dead <==>
                  exists k :: 0 <= k < i && channels[k] in row.deliveries && row.deliveries[channels[k]].state == Dead
      {
        if channels[i] in row.deliveries {
          open := open || Open(row.deliveries[channels[i]].state);
          dead := dead || row.deliveries[channels[i]].state == Dead;
        }
      }
      EveryChannel(row.deliveries, channels);
      if !open {
        row := row.(status := if dead then DeadLetter else Completed);
      }
      cases := cases[intent := row.(owed := row.owed - multiset{process})];
    }

    /** The settlement that the provider's answer calls for. It throws when the provider's message
        id is another row's already; `final` tells that a finalisation is owed. */
    method Settle(ticket: Ticket, answer: Answer, digest: Ticket -> nat) returns (thrown: bool, final: bool,
                  ghost action: Action)
      requires !answer.Throws?
      modifies this`cases
      ensures action == Settlement(Rules(digest), ticket, answer, old(clock))
      ensures Model() == Step(old(Model()), action)
      ensures thrown <==> Refused(old(Model()), action)
      ensures final <==> IsFinal(Rules(digest), old(Model()), ticket, answer)
    {
      var deadLetter := ticket.attempt >= maximumAttempts;
      var delay := Retry.DelaySeconds(ticket.attempt, retryBaseSeconds, retryMaximumSeconds, digest(ticket));
      var next := Retry.NextAttemptAt(clock, delay);
      action := Settlement(Rules(digest), ticket, answer, clock);
      hide TakenElsewhere, Commits;
      thrown, final := false, false;
      if ticket.intent in cases {
        var row := cases[ticket.intent];
        if ticket.channel in row.deliveries {
          var d := row.deliveries[ticket.channel];
          if d.leaseOwner == Some(ticket.owner) && d.attempts == ticket.attempt && d.state == InProgress {
            if answer.Accepts? {
              var key := RowKey(d.key.provider, answer.message);
              if TakenElsewhere(cases, ticket.intent, ticket.channel, key) {
                thrown := true;
                return;
              }
              d := d.(state := Sent, key := key, leasedAt := None, leaseOwner := None);
            } else {
              d := d.(state := if deadLetter then Dead else Retrying, nextAttemptAt := next, leasedAt := None,
                      leaseOwner := None);
            }
            final := answer.Accepts? || deadLetter;
            cases := cases[ticket.intent := row.(deliveries := row.deliveries[ticket.channel := d],
                                                 owed := if final then row.owed + multiset{process} else row.owed)];
          }
        }
      }
    }

    // One step of anybody else.
    method Perform(action: Action)
      modifies this`cases, this`clock
      ensures Model() == Step(old(Model()), action)
    {
      if action.Tick? {
        clock := if action.to > clock then action.to else clock;
      } else {
        var s := Tables(cases, clock);
        cases := Step(s, action).cases;
      }
    }

    // What the rest of the system does while this process is between two of its own steps.
    method Meanwhile(actions: seq<Action>)
      modifies this`cases, this`clock
      ensures Model() == Run(old(Model()), actions)
    {
      for i := 0 to |actions|
        invariant Model() == Run(old(Model()), actions[..i])
      {
        assert actions[..i + 1] == actions[..i] + [actions[i]];
        RunStep(old(Model()), actions[..i], actions[i]);
        Perform(actions[i]);
      }
      assert actions[..|actions|] == actions;
    }

    /** `visible` lists the rows the query can lock, in its ORDER BY order: each is tried once,
        until the batch is full. */
    method ClaimIntents(visible: seq<IntentId>, batchSize: nat) returns (claimed: seq<IntentId>,
                        ghost claims: seq<Action>)
      requires Inv(Model()) && Mine(Model(), process, {}, {})
      modifies this`cases
      ensures VisitsIntents(claims, process, visible) && claimed == Taken(old(Model()), claims)
      ensures |claimed| <= batchSize && (|claims| == |visible| || |claimed| == batchSize)
      ensures Inv(Model()) && DistinctIds(claimed) && Mine(Model(), process, Remaining(claimed, 0), {})
      ensures Model() == Run(old(Model()), claims)
    {
      hide Step, Run, Inv, Mine, Taken, IsPending, Remaining, DistinctIds;
      ghost var s := Model();
      claimed, claims := [], [];
      RunNothing(s);
      NothingTaken(s);
      for i := 0 to |visible|
        invariant |claims| == i && VisitsIntents(claims, process, visible) && claimed == Taken(s, claims)
        invariant |claimed| <= batchSize
        invariant Inv(Model()) && DistinctIds(claimed) && Mine(Model(), process, Remaining(claimed, 0), {})
        invariant Model() == Run(s, claims)
      {
        if |claimed| == batchSize {
          break;
        }
        ghost var before := Model();
        TakenNext(s, claims, process, visible[i]);
        OwnStep(before, Action.ClaimIntent(process, visible[i]));
        ClaimedMine(before, process, claimed, visible[i]);
        var ok := ClaimIntent(visible[i]);
        claims := claims + [Action.ClaimIntent(process, visible[i])];
        if ok {
          claimed := claimed + [visible[i]];
        }
      }
    }

    method PrepareNext(intents: seq<IntentId>, i: nat, lookup: Lookup, meanwhile: seq<Action>)
      returns (ghost turn: seq<Action>)
      requires DistinctIds(intents) && i < |intents| && Foreign(meanwhile, process)
      requires Inv(Model()) && Mine(Model(), process, Remaining(intents, i), {})
      modifies this`cases, this`clock
      ensures turn == PreparationTurn(old(Model()), process, intents[i], lookup, meanwhile)
      ensures Inv(Model()) && Mine(Model(), process, Remaining(intents, i + 1), {})
      ensures Model() == Run(old(Model()), turn)
    {
      hide Run, Step, Inv, Mine, Remaining, DistinctIds, Foreign, Preparing;
      ghost var s := Model();
      OthersLeaveMineAlone(s, meanwhile, process, Remaining(intents, i), {});
      Meanwhile(meanwhile);
      ghost var before := Model();
      ghost var preparation := PreparationAt(before, intents[i], lookup);
      PreparedMine(before, process, intents, i, preparation);
      OwnStep(before, Prepare(process, intents[i], preparation));
      RunStep(s, meanwhile, Prepare(process, intents[i], preparation));
      ghost var done := PrepareIntent(intents[i], lookup);
      turn := meanwhile + [Prepare(process, intents[i], done)];
    }

    // The loop over the claimed intents.
    method PrepareAll(intents: seq<IntentId>, lookups: IntentId -> Lookup, others: nat -> seq<Action>)
      returns (ghost trace: seq<Action>)
      requires DistinctIds(intents) && AllForeign(others, process)
      requires Inv(Model()) && Mine(Model(), process, Remaining(intents, 0), {})
      modifies this`cases, this`clock
      ensures trace == Preparations(old(Model()), process, intents, lookups, others)
      ensures Inv(Model()) && Mine(Model(), process, {}, {})
      ensures Model() == Run(old(Model()), trace)
    {
      ghost var s := Model();
      trace := [];
      RunNothing(s);
      assert Preparations(s, process, intents[..0], lookups, others) == [];
      assert Remaining(intents, |intents|) == {} && intents[..|intents|] == intents;
      hide Run, Step, Inv, Mine, Remaining, DistinctIds, Foreign, Preparations, PreparationTurn;
      for i := 0 to |intents|
        invariant PreparingAll(s, Model(), process, intents, i, lookups, others, trace)
      {
        ghost var before := Model();
        ghost var turn := PrepareNext(intents, i, lookups(intents[i]), others(i));
        PrepareTurn(s, before, Model(), process, intents, i, lookups, others, trace, turn);
        trace := trace + turn;
      }
    }

    /** `visible` lists the rows the query can lock, in its ORDER BY order: each is tried once,
        until the batch is full. */
    method ClaimDeliveries(visible: seq<(IntentId, Channel)>, batchSize: nat) returns (tickets: seq<Ticket>,
                           ghost claims: seq<Action>)
      requires Inv(Model()) && Mine(Model(), process, {}, {})
      modifies this`cases
      ensures VisitsDeliveries(claims, workerId, visible) && tickets == Won(old(Model()), claims)
      ensures |tickets| <= batchSize && (|claims| == |visible| || |tickets| == batchSize)
      ensures Inv(Model()) && Mine(Model(), process, {}, {})
      ensures Model() == Run(old(Model()), claims)
    {
      hide Step, Run, Inv, Mine, Won, TicketFor;
      ghost var s := Model();
      tickets, claims := [], [];
      RunNothing(s);
      NothingWon(s);
      for i := 0 to |visible|
        invariant |claims| == i && VisitsDeliveries(claims, workerId, visible) && tickets == Won(s, claims)
        invariant |tickets| <= batchSize
        invariant Inv(Model()) && Mine(Model(), process, {}, {})
        invariant Model() == Run(s, claims)
      {
        if |tickets| == batchSize {
          break;
        }
        ghost var before, action := Model(), Action.ClaimDelivery(workerId, visible[i].0, visible[i].1);
        WonNext(s, claims, workerId, visible[i].0, visible[i].1);
        OwnStep(before, action);
        ForeignStep(before, action, process, {}, {});
        var ticket := ClaimDelivery(visible[i].0, visible[i].1);
        claims := claims + [action];
        if ticket.Some? {
          tickets := tickets + [ticket.value];
        }
      }
    }

    // The loop over the claimed deliveries.
    method DeliverAll(tickets: seq<Ticket>, world: World, digest: Ticket -> nat)
      returns (sent: nat, thrown: bool, ghost endings: seq<Ending>, ghost trace: seq<Action>)
      requires AllForeign(world.others, process) && Inv(Model()) && Mine(Model(), process, {}, {})
      modifies this`cases, this`clock
      ensures EndsRightly(endings, |tickets|, thrown) && sent == CountSent(endings)
      ensures (endings, trace) == DeliveryTurns(Rules(digest), old(Model()), tickets[..|endings|], world)
      ensures Inv(Model()) && Mine(Model(), process, {}, {})
      ensures Model() == Run(old(Model()), trace)
    {
      hide Step, Run, Inv, Mine, Foreign, NextTurn, DeliveryTurn, DeliveryTurns, CountSent, Delivering, NoneThrown,
          EndsRightly;
      ghost var s, rules := Model(), Rules(digest);
      sent, thrown, endings, trace := 0, false, [], [];
      StartDelivering(rules, s, tickets, world);
      for i := 0 to |tickets|
        invariant Delivering(rules, s, Model(), tickets, i, world, endings, trace, sent)
        invariant !thrown && NoneThrown(endings)
      {
        ghost var before := Model();
        Delivered(rules, s, before, tickets, i, world, endings, trace, sent);
        OthersLeaveMineAlone(before, world.others(2 * i), process, {}, {});
        Meanwhile(world.others(2 * i));
        ghost var now := Model();
        ghost var turn;
        var ending;
        ending, turn := Deliver(tickets[i], world.answers(tickets[i]), world.heard(tickets[i]),
            world.others(2 * i + 1), digest);
        ThisTurn(rules, now, tickets[i], i, world);
        DeliverNext(rules, s, before, Model(), tickets, i, world, endings, trace, sent, ending, turn);
        EndsNext(endings, ending, |tickets|);
        endings, trace := endings + [ending], trace + world.others(2 * i) + turn;
        thrown := ending == Thrown;
        if ending == Counted {
          sent := sent + 1;
        }
        if thrown {
          Delivered(rules, s, Model(), tickets, i + 1, world, endings, trace, sent);
          return;
        }
      }
      Delivered(rules, s, Model(), tickets, |tickets|, world, endings, trace, sent);
      EndsAfterAll(endings);
    }

    /** The round does exactly this: it claims and prepares intents, claims and delivers
        deliveries, and counts what was sent, whatever others do. It ends early, with an exception
        in place of the counts, exactly when a provider, a settlement or a finalisation throws. In
        either case it leaves this process with nothing to prepare and no finalisation to pay. */
    method ProcessDue(visibleIntents: seq<IntentId>, visibleDeliveries: seq<(IntentId, Channel)>, batchSize: nat,
                      lookups: IntentId -> Lookup, whilePreparing: nat -> seq<Action>, world: World,
                      digest: Ticket -> nat)
      returns (intentsPrepared: nat, deliveriesProcessed: nat, deliveriesSent: nat, thrown: bool,
               ghost intentClaims: seq<Action>, ghost deliveryClaims: seq<Action>, ghost turns: nat)
      requires AllForeign(whilePreparing, process) && AllForeign(world.others, process)
      requires Inv(Model()) && Mine(Model(), process, {}, {})
      modifies this`cases, this`clock
      ensures Inv(Model()) && Mine(Model(), process, {}, {})
      ensures VisitsIntents(intentClaims, process, visibleIntents) &&
              VisitsDeliveries(deliveryClaims, workerId, visibleDeliveries)
      ensures var s := old(Model());
              var claimed := Run(s, intentClaims);
              var intents := Taken(s, intentClaims);
              var prepared := Run(claimed, Preparations(claimed, process, intents, lookups, whilePreparing));
              var tickets := Won(prepared, deliveryClaims);
              && turns <= |tickets|
              && var (endings, trace) := DeliveryTurns(Rules(digest), Run(prepared, deliveryClaims), tickets[..turns],
                  world);
              && |endings| == turns && EndsRightly(endings, |tickets|, thrown)
              && intentsPrepared == |intents| <= batchSize &&
                 (|intentClaims| == |visibleIntents| || intentsPrepared == batchSize)
              && deliveriesProcessed == |tickets| <= batchSize &&
                 (|deliveryClaims| == |visibleDeliveries| || deliveriesProcessed == batchSize)
              && deliveriesSent == CountSent(endings)
              && Model() == Run(Run(prepared, deliveryClaims), trace)
    {
      hide Step, Run, Inv, Mine, Foreign, AllForeign, DeliveryTurns, Preparations, CountSent, Taken, Won, Remaining,
          VisitsIntents, VisitsDeliveries, DistinctIds;
      var intents, tickets;
      intents, intentClaims := ClaimIntents(visibleIntents, batchSize);
      ghost var preparing := PrepareAll(intents, lookups, whilePreparing);
      tickets, deliveryClaims := ClaimDeliveries(visibleDeliveries, batchSize);
      ghost var endings, trace;
      deliveriesSent, thrown, endings, trace := DeliverAll(tickets, world, digest);
      intentsPrepared, deliveriesProcessed, turns := |intents|, |tickets|, |endings|;
    }

    // Pays the owed finalisation, or gives it up when it does not reach the database.
    method Finish(intent: IntentId, meanwhile: seq<Action>, reply: Reply) returns (ghost trace: seq<Action>)
      requires Inv(Model()) && Mine(Model(), process, {}, {intent}) && Foreign(meanwhile, process)
      modifies this`cases, this`clock
      ensures Inv(Model()) && Mine(Model(), process, {}, {})
      ensures trace == meanwhile +
              [if reply == LostBeforeCommit then Crash(process, intent) else Finalize(process, intent)]
      ensures Model() == Run(old(Model()), trace)
    {
      hide Step, Mine, Inv, Run, Foreign;
      OthersLeaveMineAlone(Model(), meanwhile, process, {}, {intent});
      Meanwhile(meanwhile);
      ghost var last := if reply == LostBeforeCommit then Crash(process, intent) else Finalize(process, intent);
      RunStep(old(Model()), meanwhile, last);
      OwnStep(Model(), last);
      FinalizedMine(Model(), process, intent);
      GivenUpMine(Model(), process, intent);
      if reply == LostBeforeCommit {
        GiveUp(intent);
      } else {
        FinalizeIntent(intent);
      }
      trace := meanwhile + [last];
    }

    // An exception leaves what is owed unpaid; this changes no row.
    method GiveUp(intent: IntentId)
      requires intent in cases
      modifies this`cases
      ensures Model() == Step(old(Model()), Crash(process, intent))
    {
      cases := cases[intent := cases[intent].(
        preparing := if cases[intent].preparing == Some(process) then None else cases[intent].preparing,
        owed := cases[intent].owed[process := 0])];
    }

    /** One delivery: settled, and its intent finalised when the settlement was final, whatever
        others do in between and whichever replies are lost. Nothing is owed afterwards. */
    method Deliver(ticket: Ticket, answer: Answer, heard: Heard, meanwhile: seq<Action>, digest: Ticket -> nat)
      returns (ending: Ending, ghost trace: seq<Action>)
      requires Inv(Model()) && Mine(Model(), process, {}, {}) && Foreign(meanwhile, process)
      modifies this`cases, this`clock
      ensures (ending, trace) == DeliveryTurn(Rules(digest), old(Model()), ticket, answer, heard, meanwhile)
      ensures Inv(Model()) && Mine(Model(), process, {}, {})
      ensures Model() == Run(old(Model()), trace)
    {
      hide Step, Run, Inv, Mine, Foreign, Held, Refused, IsFinal, Settlement;
      ghost var s := Model();
      ending, trace := Thrown, [];
      if answer.Throws? || heard.settlement == LostBeforeCommit {
        RunNothing(s);
        return;
      }
      ghost var action;
      var thrown, final;
      thrown, final, action := Settle(ticket, answer, digest);
      trace := [action];
      assert [action] + [] == [action];
      RunOne(s, action);
      OwnStep(s, action);
      SettlementMine(Rules(digest), s, ticket, answer);
      if thrown {
        return;
      }
      if heard.settlement == LostAfterCommit {
        if final {
          RunStep(s, trace, Crash(process, ticket.intent));
          OwnStep(Model(), Crash(process, ticket.intent));
          GivenUpMine(Model(), process, ticket.intent);
          FinalizedMine(Model(), process, ticket.intent);
          GiveUp(ticket.intent);
          trace := trace + [Crash(process, ticket.intent)];
        }
        return;
      }
      ending := NotCounted;
      if final {
        ghost var rest := Finish(ticket.intent, meanwhile, heard.finalisation);
        RunAppend(s, trace, rest);
        trace := trace + rest;
        ending := if heard.finalisation != Answered then Thrown else if answer.Accepts? then Counted else NotCounted;
      }
    }
  }

  lemma SettlementMine(policy: Policy, s: Tables, ticket: Ticket, answer: Answer)
    requires Mine(s, policy.process, {}, {})
    ensures var after := Step(s, Settlement(policy, ticket, answer, s.clock));
            if IsFinal(policy, s, ticket, answer) then Mine(after, policy.process, {}, {ticket.intent})
            else Mine(after, policy.process, {}, {})
    ensures Refused(s, Settlement(policy, ticket, answer, s.clock)) ==> !IsFinal(policy, s, ticket, answer)
  {
    hide Mine, Step, Held, Refused;
    SettledMine(s, Settlement(policy, ticket, answer, s.clock), policy.process, ticket);
  }

  lemma ThisTurn(policy: Policy, s: Tables, ticket: Ticket, n: nat, world: World)
    ensures NextTurn(policy, s, ticket, n, world) ==
            DeliveryTurn(policy, s, ticket, world.answers(ticket), world.heard(ticket), world.others(2 * n + 1))
  {
  }

  // ------------------------------------------------------------------ the preparation transaction

  lemma NoTemplate(s: Tables, process: nat, intent: IntentId)
    requires intent in s.cases && s.cases[intent].preparing == Some(process)
    ensures Step(s, Prepare(process, intent, TemplateMissing)) ==
            s.(cases := s.cases[intent := s.cases[intent].(status := DeadLetter, preparing := None)])
  {
  }

  lemma NothingConsidered(c: Case, terms: Terms, now: Instant)
    ensures ConsiderAll(c, terms, 0, now) == Tally(c.deliveries, c.digests, 0, 0, 0)
  {
  }

  // What the next request adds and when it throws.
  lemma RequestNext(c: Case, terms: Terms, standing: set<ProviderKey>, i: nat, now: Instant)
    requires i < |c.channels|
    ensures var t := ConsiderAll(c, terms, i, now);
            var channel, preference := c.channels[i], PreferenceAt(terms.preferences, i);
            var decision := Decide(preference, channel);
            var provider := ProviderOf(terms, channel, decision);
            && ConsiderAll(c, terms, i + 1, now) == Consider(t, channel, preference, terms, now)
            && (RequestThrows(c, terms, standing, i, now) <==>
                || (decision == Decision.Deliver && NoSender(terms, channel))
                || (decision != Batch && channel !in t.deliveries && provider in standing + Unsent(t.deliveries)))
            && (NoRequestThrows(c, terms, standing, i, now) && !RequestThrows(c, terms, standing, i, now) ==>
                NoRequestThrows(c, terms, standing, i + 1, now))
  {
  }

  lemma RollsBack(s: Tables, process: nat, intent: IntentId, lookup: Lookup)
    requires intent in s.cases && s.cases[intent].preparing == Some(process) && lookup.templateActive
    requires var c := s.cases[intent];
             || (lookup.throwsAt.Some? && lookup.throwsAt.value <= |c.channels|)
             || !Commits(c, lookup.terms, Standing(s.cases, intent), s.clock)
    ensures var c := s.cases[intent];
            Step(s, Prepare(process, intent, Preparing(c, lookup))) ==
            s.(cases := s.cases[intent :=
              c.(status := if c.status == Processing then DeadLetter else c.status, preparing := None)])
  {
    hide RequestThrows, Standing;
  }

  lemma Commit(s: Tables, process: nat, intent: IntentId, lookup: Lookup)
    requires intent in s.cases && s.cases[intent].preparing == Some(process) && lookup.templateActive
    requires lookup.throwsAt.Some? ==> lookup.throwsAt.value > |s.cases[intent].channels|
    requires Commits(s.cases[intent], lookup.terms, Standing(s.cases, intent), s.clock)
    ensures var c := s.cases[intent];
            var t := ConsiderAll(c, lookup.terms, |c.channels|, s.clock);
            Step(s, Prepare(process, intent, Preparing(c, lookup))) ==
            s.(cases := s.cases[intent := c.(deliveries := t.deliveries, digests := t.digests, status := StatusAfter(t),
                                             preparing := None, immediate := t.immediate > 0)])
  {
    hide RequestThrows, Standing, ConsiderAll;
  }

  // The remaining work of the preparation loop.
  function Remaining(intents: seq<IntentId>, from: nat): set<IntentId>
    requires from <= |intents|
  {
    set i | from <= i < |intents| :: intents[i]
  }

  predicate DistinctIds(intents: seq<IntentId>) {
    forall i, j :: 0 <= i < j < |intents| ==> intents[i] != intents[j]
  }

  // What preparation meets: whether there is an active template, the terms, and the request for
  // which something else throws (a rendering error, a lost connection), if any, or their number
  // when that is the intent's own update or the COMMIT.
  datatype Lookup = Lookup(templateActive: bool, terms: Terms, throwsAt: Option<nat>)

  ghost predicate AllForeign(others: nat -> seq<Action>, process: nat) {
    forall n: nat :: Foreign(others(n), process)
  }

  lemma ClaimedMine(s: Tables, process: nat, intents: seq<IntentId>, intent: IntentId)
    requires Inv(s) && DistinctIds(intents) && Mine(s, process, Remaining(intents, 0), {})
    ensures IsPending(s, intent) ==>
      DistinctIds(intents + [intent]) &&
          Mine(Step(s, ClaimIntent(process, intent)), process, Remaining(intents + [intent], 0), {})
    ensures !IsPending(s, intent) ==> Mine(Step(s, ClaimIntent(process, intent)), process, Remaining(intents, 0), {})
  {
    if IsPending(s, intent) {
      NewIntentIsMine(s, process, intents, intent);
    }
  }

  lemma NewIntentIsMine(s: Tables, process: nat, intents: seq<IntentId>, intent: IntentId)
    requires Inv(s) && DistinctIds(intents) && Mine(s, process, Remaining(intents, 0), {}) && IsPending(s, intent)
    ensures DistinctIds(intents + [intent])
    ensures Mine(Step(s, ClaimIntent(process, intent)), process, Remaining(intents + [intent], 0), {})
  {
    hide *;
    PendingIsNotMine(s, process, Remaining(intents, 0), intent);
    OneMoreIntent(intents, intent);
    ClaimMakesMine(s, process, Remaining(intents, 0), intent);
  }

  lemma PendingIsNotMine(s: Tables, process: nat, preparing: set<IntentId>, intent: IntentId)
    requires Inv(s) && Mine(s, process, preparing, {}) && IsPending(s, intent)
    ensures intent !in preparing
  {
    assert CaseInv(s.cases[intent]);
    hide CaseInv;
  }

  lemma OneMoreIntent(intents: seq<IntentId>, intent: IntentId)
    requires DistinctIds(intents) && intent !in Remaining(intents, 0)
    ensures DistinctIds(intents + [intent]) && Remaining(intents + [intent], 0) == Remaining(intents, 0) + {intent}
  {
    forall k | 0 <= k < |intents|
      ensures intents[k] != intent && (intents + [intent])[k] == intents[k]
    {
      assert intents[k] in Remaining(intents, 0);
    }
    assert (intents + [intent])[|intents|] == intent;
  }

  lemma ClaimMakesMine(s: Tables, process: nat, preparing: set<IntentId>, intent: IntentId)
    requires Mine(s, process, preparing, {}) && IsPending(s, intent)
    ensures Mine(Step(s, ClaimIntent(process, intent)), process, preparing + {intent}, {})
  {
    hide Mine, Commits, ConsiderAll;
    MineHere(s, process, preparing, {}, intent);
    MineAfter(s, intent, CaseStep(s.cases[intent], ClaimIntent(process, intent), s.clock), process, preparing, {},
        preparing + {intent}, {});
  }

  lemma PreparedCase(c: Case, process: nat, intent: IntentId, preparation: Preparation, now: Instant)
    requires c.preparing == Some(process)
    ensures var c' := CaseStep(c, Prepare(process, intent, preparation), now);
            c'.preparing == None && c'.owed == c.owed
  {
    hide ConsiderAll, StatusAfter;
  }

  lemma PreparedMine(s: Tables, process: nat, intents: seq<IntentId>, i: nat, preparation: Preparation)
    requires DistinctIds(intents) && i < |intents| && Mine(s, process, Remaining(intents, i), {})
    ensures intents[i] in s.cases && s.cases[intents[i]].preparing == Some(process)
    ensures Mine(Step(s, Prepare(process, intents[i], preparation)), process, Remaining(intents, i + 1), {})
  {
    hide Mine, CaseStep, Commits;
    var intent, before, after := intents[i], Remaining(intents, i), Remaining(intents, i + 1);
    assert intent in before && after == before - {intent};
    MineIsThere(s, process, before, {}, intent);
    MineHere(s, process, before, {}, intent);
    var admitted := Admitted(s, Prepare(process, intent, preparation));
    PreparedCase(s.cases[intent], process, intent, admitted.preparation, s.clock);
    MineAfter(s, intent, CaseStep(s.cases[intent], admitted, s.clock), process, before, {}, after, {});
  }

  lemma EveryChannel(deliveries: map<Channel, Delivery>, channels: seq<Channel>)
    requires channels == [Email, Sms, Push]
    ensures AnyOpen(deliveries) <==>
            exists k :: 0 <= k < 3 && channels[k] in deliveries && Open(deliveries[channels[k]].state)
    ensures AnyDead(deliveries) <==>
            exists k :: 0 <= k < 3 && channels[k] in deliveries && deliveries[channels[k]].state == Dead
  {
    assert channels[0] == Email && channels[1] == Sms && channels[2] == Push;
    forall c: Channel | c in deliveries
      ensures exists k :: 0 <= k < 3 && channels[k] == c
    {
      match c {
        case Email => assert channels[0] == c;
        case Sms => assert channels[1] == c;
        case Push => assert channels[2] == c;
      }
    }
  }
}
