/**
  Notification intents and their channel deliveries.  A case is one intent row with the
  delivery rows that share its id, and three pieces of history: which process has claimed it
  and not yet prepared it, whether preparation counted immediate deliveries, and which
  processes still owe it a `finalizeIntent` call, as often as they do.  A trigger on the
  delivery table stores a row that is to go out as suppressed when its recipient is on the
  channel's suppression list: that channel is screened.  The table's unique key on provider and
  message id counts a missing id as a value, so a provider has at most one row without one.
*/
module Notifications {
  import opened Wrappers

  type IntentId = string
  type WorkerId = string
  type ProviderKey = string
  type MessageId = string
  type Instant = int // microseconds

  const SECOND: int := 1_000_000

  datatype Channel = Email | Sms | Push

  datatype Status = Pending | Processing | Suppressed | Digested | Completed | DeadLetter

  datatype DeliveryState = Waiting | InProgress | Sent | Retrying | Withheld | Dead

  // The columns of the unique key.
  datatype RowKey = RowKey(provider: ProviderKey, message: Option<MessageId>)

  datatype Delivery = Delivery(state: DeliveryState, key: RowKey, attempts: nat, nextAttemptAt: Instant,
    leasedAt: Option<Instant>, leaseOwner: Option<WorkerId>)

  datatype Case = Case(
    status: Status,
    scheduledAt: Instant,
    channels: seq<Channel>,
    deliveries: map<Channel, Delivery>,
    digests: set<Channel>,
    preparing: Option<nat>,
    immediate: bool,
    owed: multiset<nat>)

  datatype Tables = Tables(cases: map<IntentId, Case>, clock: Instant)

  datatype Preference = Enabled | Disabled | Digest

  // What a preparation meets: the preferences request by request, the screened channels, the
  // senders configured per channel, and whether it runs in production, where one is required.
  datatype Terms = Terms(preferences: seq<Preference>, screened: set<Channel>, senders: map<Channel, ProviderKey>,
    production: bool)

  // How a preparation transaction ends, if the database accepts its rows.
  datatype Preparation = TemplateMissing | RolledBack | Prepared(terms: Terms)

  datatype Ticket = Ticket(intent: IntentId, channel: Channel, attempt: nat, owner: WorkerId)

  datatype Action =
    | Tick(to: Instant)
    | Create(intent: IntentId, channels: seq<Channel>, scheduledAt: Instant)
    | ClaimIntent(process: nat, intent: IntentId)
    | Prepare(process: nat, intent: IntentId, preparation: Preparation)
    | ClaimDelivery(owner: WorkerId, intent: IntentId, channel: Channel)
    | Accept(process: nat, ticket: Ticket, message: Option<MessageId>)
    | Reject(process: nat, ticket: Ticket, nextAttempt: Instant, deadLetter: bool)
    | Finalize(process: nat, intent: IntentId)
    | Crash(process: nat, intent: IntentId) // gives up what it still has to do for this intent

  predicate Open(state: DeliveryState) {
    state == Waiting || state == InProgress || state == Retrying
  }

  predicate AnyOpen(deliveries: map<Channel, Delivery>) {
    exists c :: c in deliveries && Open(deliveries[c].state)
  }

  predicate AnyDead(deliveries: map<Channel, Delivery>) {
    exists c :: c in deliveries && deliveries[c].state == Dead
  }

  // ------------------------------------------------------------------ preparation

  datatype Decision = Withhold | Batch | Deliver

  function Decide(preference: Preference, channel: Channel): Decision {
    match preference
    case Disabled => Withhold
    case Digest => if channel == Email || channel == Push then Batch else Deliver
    case Enabled => Deliver
  }

  function Fresh(state: DeliveryState, provider: ProviderKey, now: Instant): Delivery {
    Delivery(state, RowKey(provider, None), 0, now, None, None)
  }

  // INSERT ... ON CONFLICT (intent, channel) DO NOTHING, where no other key is violated.
  function Insert(deliveries: map<Channel, Delivery>, channel: Channel, state: DeliveryState, provider: ProviderKey,
                  now: Instant): map<Channel, Delivery> {
    if channel in deliveries then deliveries else deliveries[channel := Fresh(state, provider, now)]
  }

  // Outside production the local sender stands in.
  predicate NoSender(terms: Terms, channel: Channel) {
    channel !in terms.senders && terms.production
  }

  // The provider key that is stored, after the trigger.
  function ProviderOf(terms: Terms, channel: Channel, decision: Decision): ProviderKey {
    if channel in terms.screened then "suppression"
    else if decision == Withhold then "preference"
    else if channel in terms.senders then terms.senders[channel]
    else "stdout"
  }

  datatype Tally = Tally(deliveries: map<Channel, Delivery>, digests: set<Channel>, immediate: nat, suppressed: nat,
    digested: nat)

  // `immediate` counts a delivery although the trigger may store it as suppressed.
  function Consider(t: Tally, channel: Channel, preference: Preference, terms: Terms, now: Instant): Tally {
    var provider := ProviderOf(terms, channel, Decide(preference, channel));
    match Decide(preference, channel)
    case Withhold =>
      t.(deliveries := Insert(t.deliveries, channel, Withheld, provider, now), suppressed := t.suppressed + 1)
    case Batch => t.(digests := t.digests + {channel}, digested := t.digested + 1)
    case Deliver =>
      var state := if channel in terms.screened then Withheld else Waiting;
      t.(deliveries := Insert(t.deliveries, channel, state, provider, now), immediate := t.immediate + 1)
  }

  // A missing preference row counts as enabled.
  function PreferenceAt(preferences: seq<Preference>, i: nat): Preference {
    if i < |preferences| then preferences[i] else Enabled
  }

  function ConsiderAll(c: Case, terms: Terms, n: nat, now: Instant): Tally
    requires n <= |c.channels|
  {
    if n == 0 then Tally(c.deliveries, c.digests, 0, 0, 0)
    else
      var t := ConsiderAll(c, terms, n - 1, now);
      Consider(t, c.channels[n - 1], PreferenceAt(terms.preferences, n - 1), terms, now)
  }

  // The providers that have a row without a message id.
  function Unsent(deliveries: map<Channel, Delivery>): set<ProviderKey> {
    set x | x in deliveries && deliveries[x].key.message.None? :: deliveries[x].key.provider
  }

  // Those of all other intents.
  function Standing(cases: map<IntentId, Case>, intent: IntentId): set<ProviderKey> {
    set i, p | i in cases && i != intent && p in Unsent(cases[i].deliveries) :: p
  }

  /** Whether request i throws: there is no sender in production, or a new row's provider has a
      row without a message id already. */
  predicate RequestThrows(c: Case, terms: Terms, standing: set<ProviderKey>, i: nat, now: Instant)
    requires i < |c.channels|
  {
    var t := ConsiderAll(c, terms, i, now);
    var channel, decision := c.channels[i], Decide(PreferenceAt(terms.preferences, i), c.channels[i]);
    || (decision == Deliver && NoSender(terms, channel))
    || (decision != Batch && channel !in t.deliveries &&
        ProviderOf(terms, channel, decision) in standing + Unsent(t.deliveries))
  }

  predicate Commits(c: Case, terms: Terms, standing: set<ProviderKey>, now: Instant) {
    forall i :: 0 <= i < |c.channels| ==> !RequestThrows(c, terms, standing, i, now)
  }

  function StatusAfter(t: Tally): Status {
    if t.immediate > 0 then Processing
    else if t.digested > 0 then Digested
    else if t.suppressed > 0 then Suppressed
    else DeadLetter
  }

  // ------------------------------------------------------------------ one case, one step

  predicate Claimable(d: Delivery, now: Instant) {
    && (d.state == Waiting || d.state == Retrying)
    && d.nextAttemptAt <= now
    && (d.leasedAt.None? || d.leasedAt.value < now - 60 * SECOND)
  }

  predicate Holds(c: Case, ticket: Ticket) {
    && ticket.channel in c.deliveries
    && var d := c.deliveries[ticket.channel];
       d.leaseOwner == Some(ticket.owner) && d.attempts == ticket.attempt && d.state == InProgress
  }

  function Released(d: Delivery, state: DeliveryState): Delivery {
    d.(state := state, leasedAt := None, leaseOwner := None)
  }

  // finalizeIntent's UPDATE: nothing while a delivery is open, else the verdict on all of them.
  function Finalized(c: Case): Case {
    if AnyOpen(c.deliveries) then c
    else c.(status := if AnyDead(c.deliveries) then DeadLetter else Completed)
  }

  function CaseStep(c: Case, action: Action, now: Instant): Case {
    match action
    case Tick(_) | Create(_, _, _) => c
    case ClaimIntent(process, _) =>
      if c.status == Pending && c.scheduledAt <= now then c.(status := Processing, preparing := Some(process)) else c
    case Prepare(process, _, preparation) =>
      if c.preparing != Some(process) then c
      else (
        match preparation
        case TemplateMissing => c.(status := DeadLetter, preparing := None)
        case RolledBack => c.(status := if c.status == Processing then DeadLetter else c.status, preparing := None)
        case Prepared(terms) =>
          var t := ConsiderAll(c, terms, |c.channels|, now);
          c.(deliveries := t.deliveries, digests := t.digests, status := StatusAfter(t),
             preparing := None, immediate := t.immediate > 0)
      )
    case ClaimDelivery(owner, _, channel) =>
      if channel in c.deliveries && Claimable(c.deliveries[channel], now) then
        var d := c.deliveries[channel];
        c.(deliveries := c.deliveries[channel :=
             d.(state := InProgress, attempts := d.attempts + 1, leasedAt := Some(now), leaseOwner := Some(owner))])
      else c
    case Accept(process, ticket, message) =>
      if Holds(c, ticket) then
        var d := Released(c.deliveries[ticket.channel], Sent);
        c.(deliveries := c.deliveries[ticket.channel := d.(key := RowKey(d.key.provider, message))],
           owed := c.owed + multiset{process})
      else c
    case Reject(process, ticket, nextAttempt, deadLetter) =>
      if Holds(c, ticket) then
        var d := Released(c.deliveries[ticket.channel], if deadLetter then Dead else Retrying);
        c.(deliveries := c.deliveries[ticket.channel := d.(nextAttemptAt := nextAttempt)],
           owed := if deadLetter then c.owed + multiset{process} else c.owed)
      else c
    case Finalize(process, _) =>
      if process in c.owed then Finalized(c).(owed := c.owed - multiset{process}) else c
    case Crash(process, _) =>
      c.(preparing := if c.preparing == Some(process) then None else c.preparing, owed := c.owed[process := 0])
  }

  function NewCase(channels: seq<Channel>, scheduledAt: Instant): Case {
    Case(Pending, scheduledAt, channels, map[], {}, None, false, multiset{})
  }

  function Target(action: Action): Option<IntentId> {
    match action
    case Tick(_) => None
    case Create(intent, _, _) => Some(intent)
    case ClaimIntent(_, intent) => Some(intent)
    case Prepare(_, intent, _) => Some(intent)
    case ClaimDelivery(_, intent, _) => Some(intent)
    case Accept(_, ticket, _) => Some(ticket.intent)
    case Reject(_, ticket, _, _) => Some(ticket.intent)
    case Finalize(_, intent) => Some(intent)
    case Crash(_, intent) => Some(intent)
  }

  // What the unique key makes of a preparation: whatever throws rolls it back.
  function Admitted(s: Tables, action: Action): Action {
    if action.Prepare? && action.preparation.Prepared? && action.intent in s.cases &&
        !Commits(s.cases[action.intent], action.preparation.terms, Standing(s.cases, action.intent), s.clock)
    then action.(preparation := RolledBack)
    else action
  }

  predicate IsRow(s: Tables, intent: IntentId, channel: Channel) {
    intent in s.cases && channel in s.cases[intent].deliveries
  }

  function KeyAt(s: Tables, intent: IntentId, channel: Channel): RowKey
    requires IsRow(s, intent, channel)
  {
    s.cases[intent].deliveries[channel].key
  }

  predicate TakenElsewhere(cases: map<IntentId, Case>, intent: IntentId, channel: Channel, key: RowKey) {
    exists i, x :: i in cases && x in cases[i].deliveries && (i != intent || x != channel) &&
      cases[i].deliveries[x].key == key
  }

  // An acceptance throws when another row has the provider's message id already.
  predicate Refused(s: Tables, action: Action) {
    && action.Accept? && action.ticket.intent in s.cases && Holds(s.cases[action.ticket.intent], action.ticket)
    && var ticket := action.ticket;
       var d := s.cases[ticket.intent].deliveries[ticket.channel];
       TakenElsewhere(s.cases, ticket.intent, ticket.channel, RowKey(d.key.provider, action.message))
  }

  function Step(s: Tables, action: Action): Tables {
    if action.Tick? then s.(clock := if action.to > s.clock then action.to else s.clock)
    else
      var intent := Target(action).value;
      if Refused(s, action) then s
      else if intent in s.cases then
        s.(cases := s.cases[intent := CaseStep(s.cases[intent], Admitted(s, action), s.clock)])
      else if action.Create? then s.(cases := s.cases[intent := NewCase(action.channels, action.scheduledAt)])
      else s
  }

  function Run(s: Tables, actions: seq<Action>): Tables {
    if actions == [] then s else Step(Run(s, actions[..|actions| - 1]), actions[|actions| - 1])
  }

  lemma RunStep(s: Tables, actions: seq<Action>, action: Action)
    ensures Run(s, actions + [action]) == Step(Run(s, actions), action)
  {
    assert (actions + [action])[..|actions|] == actions;
  }

  lemma {:induction false} RunAppend(s: Tables, before: seq<Action>, after: seq<Action>)
    ensures Run(s, before + after) == Run(Run(s, before), after)
  {
    if after == [] {
      assert before + after == before;
    } else {
      var last := |after| - 1;
      assert before + after == (before + after[..last]) + [after[last]];
      RunAppend(s, before, after[..last]);
      RunStep(s, before + after[..last], after[last]);
    }
  }

  // ------------------------------------------------------------------ the invariant

  // Some row was stored to go out: such a row is never withheld afterwards.
  predicate AnySendable(deliveries: map<Channel, Delivery>) {
    exists c :: c in deliveries && deliveries[c].state != Withheld
  }

  predicate CaseInv(c: Case) {
    && (AnySendable(c.deliveries) ==> c.immediate)
    && (c.immediate && !AnySendable(c.deliveries) ==> c.status == Processing)
    && (c.preparing.Some? ==> c.status == Processing && c.deliveries == map[] && c.digests == {})
    && (c.status == Pending ==> c.preparing.None? && c.deliveries == map[] && c.digests == {})
    && (c.owed != multiset{} ==> AnySendable(c.deliveries))
    && (AnyOpen(c.deliveries) ==> c.status == Processing)
    && (AnySendable(c.deliveries) && c.status != Processing ==>
          c.status == if AnyDead(c.deliveries) then DeadLetter else Completed)
    && (c.status == Completed ==> AnySendable(c.deliveries))
    && (c.immediate ==> c.preparing.None?)
  }

  // What crashes spoil: a case whose sendable deliveries are all over is finalised, or
  // somebody will.
  predicate Attended(c: Case) {
    && (AnySendable(c.deliveries) && !AnyOpen(c.deliveries) && c.status == Processing ==> c.owed != multiset{})
    && (c.status == Processing && c.preparing.None? ==> c.deliveries != map[])
  }

  // Only new rows; those that are to go out were counted.
  predicate Sound(t: Tally) {
    && (forall x :: x in t.deliveries ==> t.deliveries[x].state in {Waiting, Withheld})
    && (AnyOpen(t.deliveries) ==> t.immediate > 0)
    && (t.immediate > 0 ==> t.deliveries != map[])
  }

  lemma {:induction false} PreparedDeliveries(c: Case, terms: Terms, n: nat, now: Instant)
    requires n <= |c.channels| && c.deliveries == map[]
    ensures Sound(ConsiderAll(c, terms, n, now))
  {
    hide Sound;
    if n > 0 {
      PreparedDeliveries(c, terms, n - 1, now);
      ConsiderKeepsSound(ConsiderAll(c, terms, n - 1, now), c.channels[n - 1],
          PreferenceAt(terms.preferences, n - 1), terms, now);
    } else {
      NothingIsSound(c);
    }
  }

  lemma NothingIsSound(c: Case)
    requires c.deliveries == map[]
    ensures Sound(Tally(c.deliveries, c.digests, 0, 0, 0))
  {
  }

  lemma ConsiderKeepsSound(t: Tally, channel: Channel, preference: Preference, terms: Terms, now: Instant)
    requires Sound(t)
    ensures Sound(Consider(t, channel, preference, terms, now))
  {
    hide ProviderOf;
    var t' := Consider(t, channel, preference, terms, now);
    assert forall x :: x in t.deliveries ==> x in t'.deliveries && t'.deliveries[x] == t.deliveries[x];
    assert Decide(preference, channel) != Batch ==> channel in t'.deliveries;
  }

  lemma PrepareKeepsInv(c: Case, process: nat, intent: IntentId, preparation: Preparation, now: Instant)
    requires CaseInv(c)
    ensures var c' := CaseStep(c, Prepare(process, intent, preparation), now);
            CaseInv(c') && (Attended(c) ==> Attended(c'))
  {
    hide ConsiderAll;
    if c.preparing == Some(process) && preparation.Prepared? {
      PreparedDeliveries(c, preparation.terms, |c.channels|, now);
    }
  }

  lemma ClaimKeepsInv(c: Case, owner: WorkerId, intent: IntentId, channel: Channel, now: Instant)
    requires CaseInv(c)
    ensures var c' := CaseStep(c, ClaimDelivery(owner, intent, channel), now);
            CaseInv(c') && (Attended(c) ==> Attended(c'))
  {
    if channel in c.deliveries && Claimable(c.deliveries[channel], now) {
      assert CaseStep(c, ClaimDelivery(owner, intent, channel), now).deliveries[channel].state == InProgress;
    }
  }

  lemma AcceptKeepsInv(c: Case, process: nat, ticket: Ticket, message: Option<MessageId>, now: Instant)
    requires CaseInv(c)
    ensures var c' := CaseStep(c, Accept(process, ticket, message), now);
            CaseInv(c') && (Attended(c) ==> Attended(c'))
  {
    if Holds(c, ticket) {
      assert c.deliveries[ticket.channel].state == InProgress;
      assert CaseStep(c, Accept(process, ticket, message), now).deliveries[ticket.channel].state == Sent;
    }
  }

  lemma RejectKeepsInv(c: Case, process: nat, ticket: Ticket, nextAttempt: Instant, deadLetter: bool, now: Instant)
    requires CaseInv(c)
    ensures var c' := CaseStep(c, Reject(process, ticket, nextAttempt, deadLetter), now);
            CaseInv(c') && (Attended(c) ==> Attended(c'))
  {
    if Holds(c, ticket) {
      assert c.deliveries[ticket.channel].state == InProgress;
      assert CaseStep(c, Reject(process, ticket, nextAttempt, deadLetter), now).deliveries[ticket.channel].state ==
             if deadLetter then Dead else Retrying;
    }
  }

  lemma FinalizeKeepsInv(c: Case, process: nat, intent: IntentId, now: Instant)
    requires CaseInv(c)
    ensures var c' := CaseStep(c, Finalize(process, intent), now);
            CaseInv(c') && (Attended(c) ==> Attended(c'))
  {
    hide Finalized, AnyOpen, AnyDead, AnySendable, ConsiderAll;
    if process in c.owed {
      FinalizedKeepsInv(c, c.owed - multiset{process});
    }
  }

  lemma FinalizedKeepsInv(c: Case, owed: multiset<nat>)
    requires CaseInv(c) && AnySendable(c.deliveries)
    ensures CaseInv(Finalized(c).(owed := owed)) && Attended(Finalized(c).(owed := owed))
    ensures Finalized(c).deliveries == c.deliveries
  {
    hide AnyOpen, AnyDead;
  }

  lemma CrashKeepsInv(c: Case, process: nat, intent: IntentId, now: Instant)
    requires CaseInv(c)
    ensures CaseInv(CaseStep(c, Crash(process, intent), now))
  {
    hide AnySendable, AnyOpen, AnyDead, ConsiderAll;
    assert c.owed == multiset{} ==> c.owed[process := 0] == multiset{};
  }

  lemma ClaimIntentKeepsInv(c: Case, process: nat, intent: IntentId, now: Instant)
    requires CaseInv(c)
    ensures var c' := CaseStep(c, ClaimIntent(process, intent), now);
            CaseInv(c') && (Attended(c) ==> Attended(c'))
  {
    hide ConsiderAll;
  }

  lemma NothingHappens(c: Case, action: Action, now: Instant)
    requires action.Tick? || action.Create?
    ensures CaseStep(c, action, now) == c
  {
  }

  lemma CaseStepKeepsInv(c: Case, action: Action, now: Instant)
    requires CaseInv(c)
    ensures CaseInv(CaseStep(c, action, now))
    ensures Attended(c) && !action.Crash? ==> Attended(CaseStep(c, action, now))
  {
    hide *;
    match action {
      case Prepare(process, intent, preparation) => PrepareKeepsInv(c, process, intent, preparation, now);
      case ClaimDelivery(owner, intent, channel) => ClaimKeepsInv(c, owner, intent, channel, now);
      case Accept(process, ticket, message) => AcceptKeepsInv(c, process, ticket, message, now);
      case Reject(process, ticket, nextAttempt, deadLetter) =>
        RejectKeepsInv(c, process, ticket, nextAttempt, deadLetter, now);
      case Finalize(process, intent) => FinalizeKeepsInv(c, process, intent, now);
      case Crash(process, intent) => CrashKeepsInv(c, process, intent, now);
      case ClaimIntent(process, intent) => ClaimIntentKeepsInv(c, process, intent, now);
      case Tick(_) | Create(_, _, _) => NothingHappens(c, action, now);
    }
  }

  predicate Inv(s: Tables) {
    forall intent :: intent in s.cases ==> CaseInv(s.cases[intent])
  }

  predicate AllAttended(s: Tables) {
    forall intent :: intent in s.cases ==> Attended(s.cases[intent])
  }

  predicate CrashFree(actions: seq<Action>) {
    forall i :: 0 <= i < |actions| ==> !actions[i].Crash?
  }

  function Empty(clock: Instant): Tables {
    Tables(map[], clock)
  }

  lemma StepKeepsInv(s: Tables, action: Action)
    requires Inv(s)
    ensures Inv(Step(s, action))
    ensures AllAttended(s) && !action.Crash? ==> AllAttended(Step(s, action))
  {
    hide CaseStep, CaseInv, Attended, Refused, Commits;
    if action.Create? {
      NewCaseInv(action.channels, action.scheduledAt);
    }
    if !action.Tick? && Target(action).value in s.cases {
      CaseStepKeepsInv(s.cases[Target(action).value], Admitted(s, action), s.clock);
    }
  }

  lemma NewCaseInv(channels: seq<Channel>, scheduledAt: Instant)
    ensures CaseInv(NewCase(channels, scheduledAt)) && Attended(NewCase(channels, scheduledAt))
  {
  }

  lemma {:induction false} RunKeepsInv(s: Tables, actions: seq<Action>)
    requires Inv(s)
    ensures Inv(Run(s, actions))
    ensures AllAttended(s) && CrashFree(actions) ==> AllAttended(Run(s, actions))
  {
    hide Step, Inv, AllAttended;
    if actions != [] {
      RunKeepsInv(s, actions[..|actions| - 1]);
      StepKeepsInv(Run(s, actions[..|actions| - 1]), actions[|actions| - 1]);
    }
  }

  /** On every run with reliable replies, however workers interleave and crash: an open delivery
      keeps its intent `processing`, and a `completed` intent has only sent or withheld
      deliveries. */
  lemma StatusTellsTheTruth(clock: Instant, actions: seq<Action>, intent: IntentId)
    requires intent in Run(Empty(clock), actions).cases
    ensures var c := Run(Empty(clock), actions).cases[intent];
            && (AnyOpen(c.deliveries) ==> c.status == Processing)
            && (c.status == Completed ==> forall x :: x in c.deliveries ==> c.deliveries[x].state in {Sent, Withheld})
  {
    RunKeepsInv(Empty(clock), actions);
    var c := Run(Empty(clock), actions).cases[intent];
    assert CaseInv(c);
    if c.status == Completed {
      forall x | x in c.deliveries
        ensures c.deliveries[x].state in {Sent, Withheld}
      {
        assert !Open(c.deliveries[x].state) && c.deliveries[x].state != Dead;
      }
    }
  }

  /** `completed` is for ever: no later step touches the status or a delivery. */
  lemma {:induction false} CompletedStays(s: Tables, actions: seq<Action>, intent: IntentId)
    requires Inv(s) && intent in s.cases && s.cases[intent].status == Completed
    ensures var s' := Run(s, actions);
            && intent in s'.cases && s'.cases[intent].status == Completed
            && s'.cases[intent].deliveries == s.cases[intent].deliveries
  {
    hide CaseStep, CaseInv, Commits, Refused;
    if actions != [] {
      var shorter := actions[..|actions| - 1];
      CompletedStays(s, shorter, intent);
      RunKeepsInv(s, shorter);
      var now := Run(s, shorter);
      CompletedStep(now.cases[intent], Admitted(now, actions[|actions| - 1]), now.clock);
    }
  }

  lemma CompletedStep(c: Case, action: Action, now: Instant)
    requires CaseInv(c) && c.status == Completed
    ensures CaseStep(c, action, now).status == Completed && CaseStep(c, action, now).deliveries == c.deliveries
  {
    match action {
      case ClaimDelivery(_, _, channel) =>
        assert channel in c.deliveries ==> !Open(c.deliveries[channel].state);
      case Accept(_, ticket, _) =>
        assert ticket.channel in c.deliveries ==> !Open(c.deliveries[ticket.channel].state);
      case Reject(_, ticket, _, _) =>
        assert ticket.channel in c.deliveries ==> !Open(c.deliveries[ticket.channel].state);
      case _ =>
    }
  }

  // Only sent and suppressed rows.
  predicate AllWell(deliveries: map<Channel, Delivery>) {
    forall x :: x in deliveries ==> deliveries[x].state in {Sent, Withheld}
  }

  /** Without crashes, an intent that counted immediate deliveries, has none open and is owed no
      call is finalised with the right verdict, whatever order the workers finished in, if and
      only if some of its rows was stored to go out; otherwise it is still `processing`. */
  lemma FinishedIntentsAreFinalised(clock: Instant, actions: seq<Action>, intent: IntentId)
    requires CrashFree(actions) && intent in Run(Empty(clock), actions).cases
    requires var c := Run(Empty(clock), actions).cases[intent];
             c.immediate && !AnyOpen(c.deliveries) && c.owed == multiset{}
    ensures var c := Run(Empty(clock), actions).cases[intent];
            && (c.status in {Completed, DeadLetter} <==> AnySendable(c.deliveries))
            && (AnySendable(c.deliveries) ==> c.status == if AllWell(c.deliveries) then Completed else DeadLetter)
            && (!AnySendable(c.deliveries) ==> c.status == Processing)
  {
    RunKeepsInv(Empty(clock), actions);
    var c := Run(Empty(clock), actions).cases[intent];
    assert CaseInv(c) && Attended(c);
    assert AnyDead(c.deliveries) <==> !AllWell(c.deliveries) by {
      forall x | x in c.deliveries
        ensures c.deliveries[x].state in {Sent, Withheld, Dead}
      {
        assert !Open(c.deliveries[x].state);
      }
    }
  }

  // ------------------------------------------------------------------ stranded intents

  // `processing`, with nothing to prepare, to deliver or to finalise.
  predicate Stranded(c: Case) {
    c.status == Processing && c.preparing.None? && !AnyOpen(c.deliveries) && c.owed == multiset{}
  }

  lemma StrandedStep(c: Case, action: Action, now: Instant)
    requires Stranded(c)
    ensures CaseStep(c, action, now) == c
  {
    match action {
      case ClaimDelivery(_, _, channel) =>
        assert channel in c.deliveries ==> !Open(c.deliveries[channel].state);
      case Accept(_, ticket, _) =>
        assert ticket.channel in c.deliveries ==> !Open(c.deliveries[ticket.channel].state);
      case Reject(_, ticket, _, _) =>
        assert ticket.channel in c.deliveries ==> !Open(c.deliveries[ticket.channel].state);
      case Crash(process, _) =>
        assert c.owed[process := 0] == c.owed;
      case _ =>
    }
  }

  /** No step of any dispatcher ever moves a stranded intent again. */
  lemma {:induction false} StrandedForEver(s: Tables, actions: seq<Action>, intent: IntentId)
    requires intent in s.cases && Stranded(s.cases[intent])
    ensures intent in Run(s, actions).cases && Run(s, actions).cases[intent] == s.cases[intent]
  {
    hide CaseStep;
    if actions != [] {
      var shorter := actions[..|actions| - 1];
      StrandedForEver(s, shorter, intent);
      var now := Run(s, shorter);
      StrandedStep(s.cases[intent], Admitted(now, actions[|actions| - 1]), now.clock);
    }
  }

  predicate Decides(c: Case, terms: Terms, i: nat, decision: Decision) {
    i < |c.channels| && Decide(PreferenceAt(terms.preferences, i), c.channels[i]) == decision
  }

  // What the first of the first n requests for the channel that inserts a row decides.
  function FirstInsert(c: Case, terms: Terms, channel: Channel, n: nat): Option<Decision>
    requires n <= |c.channels|
  {
    if n == 0 then None
    else if FirstInsert(c, terms, channel, n - 1).Some? then FirstInsert(c, terms, channel, n - 1)
    else if c.channels[n - 1] == channel && !Decides(c, terms, n - 1, Batch) then
      Some(Decide(PreferenceAt(terms.preferences, n - 1), channel))
    else None
  }

  // The channel's first inserted row is one to deliver, and the suppression list lets it pass.
  predicate GoesOut(c: Case, terms: Terms, channel: Channel) {
    FirstInsert(c, terms, channel, |c.channels|) == Some(Deliver) && channel !in terms.screened
  }

  // The providers of the rows that the first n requests store, channel by channel.
  function Stored(c: Case, terms: Terms, n: nat): map<Channel, ProviderKey>
    requires n <= |c.channels|
  {
    if n == 0 then map[]
    else
      var rows, channel := Stored(c, terms, n - 1), c.channels[n - 1];
      var decision := Decide(PreferenceAt(terms.preferences, n - 1), channel);
      if channel in rows || decision == Batch then rows else rows[channel := ProviderOf(terms, channel, decision)]
  }

  function StateOf(terms: Terms, channel: Channel, decision: Decision): DeliveryState {
    if decision == Deliver && channel !in terms.screened then Waiting else Withheld
  }

  // What one more request does to the rows and to the first insert for a channel.
  lemma OneMoreRequest(c: Case, terms: Terms, n: nat, now: Instant, channel: Channel)
    requires n < |c.channels|
    ensures var rows, here := ConsiderAll(c, terms, n, now).deliveries, c.channels[n];
            var decision := Decide(PreferenceAt(terms.preferences, n), here);
            var provider := ProviderOf(terms, here, decision);
            && ConsiderAll(c, terms, n + 1, now).deliveries ==
               (if decision == Batch then rows else Insert(rows, here, StateOf(terms, here, decision), provider, now))
            && FirstInsert(c, terms, channel, n + 1) ==
               (if FirstInsert(c, terms, channel, n).None? && here == channel && decision != Batch then Some(decision)
                else FirstInsert(c, terms, channel, n))
            && Stored(c, terms, n + 1) ==
               (if here in Stored(c, terms, n) || decision == Batch then Stored(c, terms, n)
                else Stored(c, terms, n)[here := provider])
  {
    hide ProviderOf, NoSender;
  }

  lemma {:induction false} FirstInsertWins(c: Case, terms: Terms, n: nat, now: Instant, channel: Channel)
    requires n <= |c.channels| && c.deliveries == map[]
    ensures var rows, stored := ConsiderAll(c, terms, n, now).deliveries, Stored(c, terms, n);
            var first := FirstInsert(c, terms, channel, n);
            && (channel in rows <==> first.Some?) && (channel in stored <==> first.Some?)
            && (first.Some? ==>
                var provider := ProviderOf(terms, channel, first.value);
                rows[channel] == Fresh(StateOf(terms, channel, first.value), provider, now) &&
                stored[channel] == provider)
  {
    hide ConsiderAll, FirstInsert, Stored, ProviderOf, StateOf, Fresh;
    if n > 0 {
      FirstInsertWins(c, terms, n - 1, now, channel);
      OneMoreRequest(c, terms, n - 1, now, channel);
    } else {
      NoRequests(c, terms, now, channel);
    }
  }

  lemma NoRequests(c: Case, terms: Terms, now: Instant, channel: Channel)
    ensures ConsiderAll(c, terms, 0, now) == Tally(c.deliveries, c.digests, 0, 0, 0)
    ensures FirstInsert(c, terms, channel, 0) == None && Stored(c, terms, 0) == map[]
  {
  }

  lemma {:induction false} ImmediateCounts(c: Case, terms: Terms, n: nat, now: Instant)
    requires n <= |c.channels|
    ensures ConsiderAll(c, terms, n, now).immediate > 0 <==> exists i: nat :: i < n && Decides(c, terms, i, Deliver)
  {
    if n > 0 {
      ImmediateCounts(c, terms, n - 1, now);
      var before, t := ConsiderAll(c, terms, n - 1, now), ConsiderAll(c, terms, n, now);
      if Decides(c, terms, n - 1, Deliver) {
        assert t.immediate > 0;
      } else {
        assert t.immediate == before.immediate;
      }
    }
  }

  lemma OpenRows(c: Case, terms: Terms, now: Instant)
    requires c.deliveries == map[]
    ensures AnyOpen(ConsiderAll(c, terms, |c.channels|, now).deliveries) <==> exists x: Channel :: GoesOut(c, terms, x)
  {
    var t := ConsiderAll(c, terms, |c.channels|, now);
    forall x: Channel
      ensures x in t.deliveries && Open(t.deliveries[x].state) <==> GoesOut(c, terms, x)
    {
      FirstInsertWins(c, terms, |c.channels|, now, x);
    }
  }

  // ------------------------------------------------------------------ which preparations commit

  // Rows from different providers, none of which is standing.
  predicate Apart(rows: map<Channel, ProviderKey>, standing: set<ProviderKey>) {
    && (forall x :: x in rows ==> rows[x] !in standing)
    && (forall x, y :: x in rows && y in rows && x != y ==> rows[x] != rows[y])
  }

  /** Every request to deliver has a sender, and the stored rows are from different providers,
      none of which has a row without a message id elsewhere. */
  predicate Free(c: Case, terms: Terms, standing: set<ProviderKey>, n: nat)
    requires n <= |c.channels|
  {
    && (forall i: nat :: i < n && Decides(c, terms, i, Deliver) ==> !NoSender(terms, c.channels[i]))
    && Apart(Stored(c, terms, n), standing)
  }

  predicate NoRequestThrows(c: Case, terms: Terms, standing: set<ProviderKey>, n: nat, now: Instant)
    requires n <= |c.channels|
  {
    forall i :: 0 <= i < n ==> !RequestThrows(c, terms, standing, i, now)
  }

  // The unsent rows after n requests are the stored ones.
  lemma UnsentAreStored(c: Case, terms: Terms, n: nat, now: Instant)
    requires n <= |c.channels| && c.deliveries == map[]
    ensures var t := ConsiderAll(c, terms, n, now);
            t.deliveries.Keys == Stored(c, terms, n).Keys && Unsent(t.deliveries) == Stored(c, terms, n).Values
  {
    var t := ConsiderAll(c, terms, n, now);
    forall x: Channel {
      FirstInsertWins(c, terms, n, now, x);
    }
    hide ConsiderAll, Stored;
    forall p
      ensures p in Unsent(t.deliveries) <==> p in Stored(c, terms, n).Values
    {
    }
  }

  lemma ThrowsExactlyWhen(c: Case, terms: Terms, standing: set<ProviderKey>, n: nat, now: Instant)
    requires n < |c.channels| && c.deliveries == map[]
    ensures var channel, decision := c.channels[n], Decide(PreferenceAt(terms.preferences, n), c.channels[n]);
            var p, rows := ProviderOf(terms, channel, decision), Stored(c, terms, n);
            RequestThrows(c, terms, standing, n, now) <==>
              || (decision == Deliver && NoSender(terms, channel))
              || (decision != Batch && channel !in rows && (p in standing || p in rows.Values))
  {
    UnsentAreStored(c, terms, n, now);
    hide ConsiderAll, Unsent;
  }

  lemma ApartNext(rows: map<Channel, ProviderKey>, channel: Channel, p: ProviderKey, standing: set<ProviderKey>)
    requires channel !in rows
    ensures Apart(rows[channel := p], standing) <==>
            Apart(rows, standing) && p !in standing && p !in rows.Values
  {
    var more := rows[channel := p];
    assert more[channel] == p && forall x :: x in rows ==> x in more && more[x] == rows[x];
  }

  lemma FreeNext(c: Case, terms: Terms, standing: set<ProviderKey>, n: nat, now: Instant)
    requires n < |c.channels| && c.deliveries == map[]
    ensures Free(c, terms, standing, n + 1) <==>
            Free(c, terms, standing, n) && !RequestThrows(c, terms, standing, n, now)
  {
    hide RequestThrows, ProviderOf, NoSender, Apart;
    var channel, decision := c.channels[n], Decide(PreferenceAt(terms.preferences, n), c.channels[n]);
    var p, rows := ProviderOf(terms, channel, decision), Stored(c, terms, n);
    ThrowsExactlyWhen(c, terms, standing, n, now);
    assert Decides(c, terms, n, Deliver) <==> decision == Deliver;
    if channel !in rows && decision != Batch {
      ApartNext(rows, channel, p, standing);
    }
  }

  lemma {:induction false} FreeMeansNoThrow(c: Case, terms: Terms, standing: set<ProviderKey>, n: nat, now: Instant)
    requires n <= |c.channels| && c.deliveries == map[]
    ensures NoRequestThrows(c, terms, standing, n, now) <==> Free(c, terms, standing, n)
  {
    hide RequestThrows;
    if n == 0 {
      assert Stored(c, terms, 0) == map[];
    } else {
      FreeMeansNoThrow(c, terms, standing, n - 1, now);
      FreeNext(c, terms, standing, n - 1, now);
    }
  }

  lemma CommitsWhenFree(c: Case, terms: Terms, standing: set<ProviderKey>, now: Instant)
    requires c.deliveries == map[]
    ensures Commits(c, terms, standing, now) <==> Free(c, terms, standing, |c.channels|)
  {
    hide RequestThrows, Free;
    FreeMeansNoThrow(c, terms, standing, |c.channels|, now);
  }

  // Whether the intent is being prepared on these terms by this process.
  predicate IsPreparing(s: Tables, process: nat, intent: IntentId) {
    intent in s.cases && CaseInv(s.cases[intent]) && s.cases[intent].preparing == Some(process)
  }

  predicate IsFree(s: Tables, intent: IntentId, terms: Terms)
    requires intent in s.cases
  {
    Free(s.cases[intent], terms, Standing(s.cases, intent), |s.cases[intent].channels|)
  }

  /** A preparation stores its rows if and only if every request to deliver has a sender and its
      rows are from different providers, none of which has a row without a message id anywhere in
      the table; otherwise the intent is a dead letter without deliveries. */
  lemma CommitsExactlyWhen(s: Tables, process: nat, intent: IntentId, terms: Terms)
    requires IsPreparing(s, process, intent)
    ensures var c := s.cases[intent];
            var after := Step(s, Prepare(process, intent, Prepared(terms))).cases[intent];
            var t := ConsiderAll(c, terms, |c.channels|, s.clock);
            if IsFree(s, intent, terms) then
              after.deliveries == t.deliveries && after.digests == t.digests && after.status == StatusAfter(t) &&
              after.preparing.None? && after.owed == c.owed
            else
              after.deliveries == map[] && after.digests == c.digests && after.status == DeadLetter
  {
    hide Free, RequestThrows, ConsiderAll, Standing;
    CommitsWhenFree(s.cases[intent], terms, Standing(s.cases, intent), s.clock);
  }

  /** Preparing an intent strands it exactly when it commits, some request is to be delivered and
      every channel's first inserted row is withheld, by its preference or by the suppression
      list. */
  lemma StrandedExactlyWhen(s: Tables, process: nat, intent: IntentId, terms: Terms)
    requires IsPreparing(s, process, intent)
    ensures var c := s.cases[intent];
            Stranded(Step(s, Prepare(process, intent, Prepared(terms))).cases[intent]) <==>
              && IsFree(s, intent, terms)
              && (exists i: nat :: Decides(c, terms, i, Deliver))
              && !(exists x: Channel :: GoesOut(c, terms, x))
  {
    var c := s.cases[intent];
    assert c.deliveries == map[] && c.owed == multiset{};
    hide Free, RequestThrows, ConsiderAll, Standing, GoesOut, Decides, IsFree, CaseInv, AnyOpen;
    CommitsExactlyWhen(s, process, intent, terms);
    ImmediateCounts(c, terms, |c.channels|, s.clock);
    OpenRows(c, terms, s.clock);
    NothingOpen();
  }

  lemma NothingOpen()
    ensures !AnyOpen(map[])
  {
  }

  /** It happens: the first intent of all with one channel, wanted by a recipient on the
      suppression list. */
  lemma StrandingHappens(clock: Instant, intent: IntentId, process: nat, terms: Terms)
    requires terms.preferences == [Enabled] && Email in terms.screened && Email in terms.senders
    ensures var actions := [Create(intent, [Email], clock), Action.ClaimIntent(process, intent),
                            Prepare(process, intent, Prepared(terms))];
            var s := Run(Empty(clock), actions);
            intent in s.cases && Stranded(s.cases[intent])
  {
    var create, claim := Create(intent, [Email], clock), Action.ClaimIntent(process, intent);
    var prepare := Prepare(process, intent, Prepared(terms));
    RunStep(Empty(clock), [], create);
    RunStep(Empty(clock), [create], claim);
    RunStep(Empty(clock), [create, claim], prepare);
    assert [] + [create] == [create] && [create] + [claim] == [create, claim];
    assert [create, claim] + [prepare] == [create, claim, prepare];
    var s := Run(Empty(clock), [create, claim]);
    assert s.cases == map[intent := NewCase([Email], clock).(status := Processing, preparing := Some(process))];
    hide Run;
    OneScreenedChannel(s, process, intent, terms);
  }

  lemma OneScreenedChannel(s: Tables, process: nat, intent: IntentId, terms: Terms)
    requires IsPreparing(s, process, intent) && s.cases[intent].channels == [Email] && s.cases.Keys == {intent}
    requires terms.preferences == [Enabled] && Email in terms.screened && Email in terms.senders
    ensures Stranded(Step(s, Prepare(process, intent, Prepared(terms))).cases[intent])
  {
    var c := s.cases[intent];
    assert Standing(s.cases, intent) == {};
    assert FirstInsert(c, terms, Email, 0).None?;
    assert Decides(c, terms, 0, Deliver);
    assert FirstInsert(c, terms, Email, 1) == Some(Deliver);
    assert forall x: Channel :: x != Email ==> FirstInsert(c, terms, x, 1).None?;
    assert Stored(c, terms, 0) == map[] && Stored(c, terms, 1) == map[Email := "suppression"];
    hide Step, Stranded, Standing;
    StrandedExactlyWhen(s, process, intent, terms);
  }

  predicate Distinct(channels: seq<Channel>) {
    forall i, j :: 0 <= i < j < |channels| ==> channels[i] != channels[j]
  }

  lemma {:induction false} OnlyRequest(c: Case, terms: Terms, i: nat, n: nat)
    requires Distinct(c.channels) && i < |c.channels| && n <= |c.channels|
    ensures FirstInsert(c, terms, c.channels[i], n) ==
            if i < n && !Decides(c, terms, i, Batch)
            then Some(Decide(PreferenceAt(terms.preferences, i), c.channels[i])) else None
  {
    if n > 0 {
      OnlyRequest(c, terms, i, n - 1);
    }
  }

  lemma {:induction false} InsertWasRequested(c: Case, terms: Terms, channel: Channel, n: nat) returns (i: nat)
    requires n <= |c.channels| && FirstInsert(c, terms, channel, n).Some?
    ensures i < n && c.channels[i] == channel
  {
    if FirstInsert(c, terms, channel, n - 1).Some? {
      i := InsertWasRequested(c, terms, channel, n - 1);
    } else {
      i := n - 1;
    }
  }

  /** With distinct channels something goes out exactly when some channel to deliver is not
      screened: then only the suppression list can strand an intent. */
  lemma DistinctChannelsGoOut(c: Case, terms: Terms)
    requires Distinct(c.channels)
    ensures (exists x: Channel :: GoesOut(c, terms, x)) <==>
            exists i: nat :: Decides(c, terms, i, Deliver) && c.channels[i] !in terms.screened
  {
    if x: Channel :| GoesOut(c, terms, x) {
      var i := InsertWasRequested(c, terms, x, |c.channels|);
      OnlyRequest(c, terms, i, |c.channels|);
      assert Decides(c, terms, i, Deliver);
    }
    if i: nat :| Decides(c, terms, i, Deliver) && c.channels[i] !in terms.screened {
      OnlyRequest(c, terms, i, |c.channels|);
      assert GoesOut(c, terms, c.channels[i]);
    }
  }

  /** If the reply to the preparation's COMMIT is lost, the catch block marks the intent a dead
      letter with deliveries still open exactly when it committed and something goes out. */
  lemma LostPreparationReply(s: Tables, process: nat, intent: IntentId, terms: Terms)
    requires IsPreparing(s, process, intent)
    ensures var committed := Step(s, Prepare(process, intent, Prepared(terms))).cases[intent];
            var rollback := Prepare(process, intent, RolledBack);
            var caught := CaseStep(committed.(preparing := Some(process)), rollback, s.clock);
            AnyOpen(caught.deliveries) && caught.status == DeadLetter <==>
            IsFree(s, intent, terms) && exists x: Channel :: GoesOut(s.cases[intent], terms, x)
  {
    var c := s.cases[intent];
    assert c.deliveries == map[];
    hide Free, RequestThrows, ConsiderAll, Standing, GoesOut, IsFree, CaseInv, AnyOpen;
    CommitsExactlyWhen(s, process, intent, terms);
    OpenRows(c, terms, s.clock);
    PreparedDeliveries(c, terms, |c.channels|, s.clock);
    NothingOpen();
  }

  // ------------------------------------------------------------------ what preferences mean

  // The i-th request is for the channel, with this preference; a missing one counts as enabled.
  predicate Wants(c: Case, terms: Terms, i: nat, channel: Channel, preference: Preference) {
    && i < |c.channels| && c.channels[i] == channel
    && (if i < |terms.preferences| then terms.preferences[i] == preference else preference == Enabled)
  }

  // The channel is requested, with this preference each time.
  ghost predicate AlwaysWants(c: Case, terms: Terms, channel: Channel, preference: Preference) {
    && (exists i: nat :: Wants(c, terms, i, channel, preference))
    && forall i: nat :: i < |c.channels| && c.channels[i] == channel ==> Wants(c, terms, i, channel, preference)
  }

  predicate Asks(c: Case, terms: Terms, n: nat, channel: Channel, preference: Preference) {
    exists i: nat :: i < n && Wants(c, terms, i, channel, preference)
  }

  // What the first n requests make of a channel that is wanted in one way only.
  lemma {:induction false} WantedRow(c: Case, terms: Terms, channel: Channel, preference: Preference, n: nat,
                                     now: Instant)
    requires n <= |c.channels| && c.digests == {}
    requires forall i: nat :: i < n && c.channels[i] == channel ==> Wants(c, terms, i, channel, preference)
    ensures var requested, decision := Asks(c, terms, n, channel, preference), Decide(preference, channel);
            && FirstInsert(c, terms, channel, n) == (if requested && decision != Batch then Some(decision) else None)
            && (channel in ConsiderAll(c, terms, n, now).digests <==> requested && decision == Batch)
  {
    hide *;
    if n > 0 {
      WantedRow(c, terms, channel, preference, n - 1, now);
      WantedNext(c, terms, channel, n - 1, now);
      WantedStep(c, terms, channel, preference, n - 1);
    } else {
      NoRequests(c, terms, now, channel);
      NobodyAsks(c, terms, channel, preference);
    }
  }

  lemma NobodyAsks(c: Case, terms: Terms, channel: Channel, preference: Preference)
    ensures !Asks(c, terms, 0, channel, preference)
  {
  }

  lemma WantedStep(c: Case, terms: Terms, channel: Channel, preference: Preference, n: nat)
    requires n < |c.channels| && (c.channels[n] == channel ==> Wants(c, terms, n, channel, preference))
    ensures Asks(c, terms, n + 1, channel, preference) <==>
            Asks(c, terms, n, channel, preference) || c.channels[n] == channel
    ensures c.channels[n] == channel ==> PreferenceAt(terms.preferences, n) == preference
  {
  }

  lemma WantedNext(c: Case, terms: Terms, channel: Channel, n: nat, now: Instant)
    requires n < |c.channels|
    ensures var decision := Decide(PreferenceAt(terms.preferences, n), c.channels[n]);
            && FirstInsert(c, terms, channel, n + 1) ==
               (if FirstInsert(c, terms, channel, n).None? && c.channels[n] == channel && decision != Batch
                then Some(decision) else FirstInsert(c, terms, channel, n))
            && ConsiderAll(c, terms, n + 1, now).digests ==
               ConsiderAll(c, terms, n, now).digests + (if decision == Batch then {c.channels[n]} else {})
  {
    hide ProviderOf;
  }

  function AfterPreparing(s: Tables, process: nat, intent: IntentId, terms: Terms): Case
    requires IsPreparing(s, process, intent)
  {
    Step(s, Prepare(process, intent, Prepared(terms))).cases[intent]
  }

  predicate Preparable(s: Tables, process: nat, intent: IntentId, terms: Terms) {
    IsPreparing(s, process, intent) && IsFree(s, intent, terms)
  }

  lemma IsPreparable(s: Tables, process: nat, intent: IntentId, terms: Terms)
    requires Preparable(s, process, intent, terms)
    ensures IsPreparing(s, process, intent) && IsFree(s, intent, terms)
  {
  }

  lemma WantedInPreparation(s: Tables, process: nat, intent: IntentId, terms: Terms, channel: Channel,
                            preference: Preference)
    requires Preparable(s, process, intent, terms) && AlwaysWants(s.cases[intent], terms, channel, preference)
    ensures var after, decision := AfterPreparing(s, process, intent, terms), Decide(preference, channel);
            && (channel in after.deliveries <==> decision != Batch) && (channel in after.digests <==> decision == Batch)
            && (decision != Batch ==>
                  after.deliveries[channel] ==
                  Fresh(StateOf(terms, channel, decision), ProviderOf(terms, channel, decision), s.clock))
  {
    var c := s.cases[intent];
    hide *;
    IsPreparable(s, process, intent, terms);
    NothingPrepared(s, process, intent);
    CommitsExactlyWhen(s, process, intent, terms);
    FirstInsertWins(c, terms, |c.channels|, s.clock, channel);
    WantsThroughout(c, terms, channel, preference);
    WantedRow(c, terms, channel, preference, |c.channels|, s.clock);
    IsAfter(s, process, intent, terms);
  }

  lemma NothingPrepared(s: Tables, process: nat, intent: IntentId)
    requires IsPreparing(s, process, intent)
    ensures s.cases[intent].deliveries == map[] && s.cases[intent].digests == {}
  {
  }

  lemma IsAfter(s: Tables, process: nat, intent: IntentId, terms: Terms)
    requires IsPreparing(s, process, intent)
    ensures AfterPreparing(s, process, intent, terms) ==
            Step(s, Prepare(process, intent, Prepared(terms))).cases[intent]
  {
  }

  lemma WantsThroughout(c: Case, terms: Terms, channel: Channel, preference: Preference)
    requires AlwaysWants(c, terms, channel, preference)
    ensures Asks(c, terms, |c.channels|, channel, preference)
    ensures forall i: nat :: i < |c.channels| && c.channels[i] == channel ==> Wants(c, terms, i, channel, preference)
  {
  }

  /** What a recipient's preference does in a preparation that commits. A channel that is always
      disabled gets a withheld row; e-mail and push that always wait for the digest get a place in
      it and no row; whatever else is always wanted goes out, through the configured sender or the
      local one, unless the suppression list withholds it. */
  lemma PreferencesAreRespected(s: Tables, process: nat, intent: IntentId, terms: Terms, channel: Channel,
                                preference: Preference)
    requires Preparable(s, process, intent, terms) && AlwaysWants(s.cases[intent], terms, channel, preference)
    ensures var after := AfterPreparing(s, process, intent, terms);
            match preference
            case Disabled =>
              && channel !in after.digests && channel in after.deliveries
              && after.deliveries[channel].state == Withheld
              && after.deliveries[channel].key ==
                 RowKey(if channel in terms.screened then "suppression" else "preference", None)
            case Digest =>
              if channel == Sms then GoesOutNow(after, terms, channel)
              else channel in after.digests && channel !in after.deliveries
            case Enabled => GoesOutNow(after, terms, channel)
  {
    WantedInPreparation(s, process, intent, terms, channel, preference);
    hide AfterPreparing;
  }

  // Stored to be sent at once, or withheld by the suppression list.
  predicate GoesOutNow(after: Case, terms: Terms, channel: Channel) {
    && channel !in after.digests && channel in after.deliveries
    && var d := after.deliveries[channel];
       && d.attempts == 0 && d.leasedAt.None? && d.leaseOwner.None? && d.key.message.None?
       && (if channel in terms.screened then d.state == Withheld && d.key.provider == "suppression"
           else d.state == Waiting &&
                d.key.provider == if channel in terms.senders then terms.senders[channel] else "stdout")
  }

  // The i-th request asks for delivery at once, or for a place in the digest.
  predicate WantsNow(c: Case, terms: Terms, i: nat) {
    exists x: Channel :: Wants(c, terms, i, x, Enabled) || (x == Sms && Wants(c, terms, i, x, Digest))
  }

  predicate WantsDigest(c: Case, terms: Terms, i: nat) {
    exists x: Channel :: x != Sms && Wants(c, terms, i, x, Digest)
  }

  lemma {:induction false} CountsByWish(c: Case, terms: Terms, n: nat, now: Instant)
    requires n <= |c.channels|
    ensures var t := ConsiderAll(c, terms, n, now);
            && (t.immediate > 0 <==> exists i: nat :: i < n && WantsNow(c, terms, i))
            && (t.digested > 0 <==> exists i: nat :: i < n && WantsDigest(c, terms, i))
            && t.immediate + t.digested + t.suppressed == n
  {
    if n > 0 {
      CountsByWish(c, terms, n - 1, now);
      var before, t := ConsiderAll(c, terms, n - 1, now), ConsiderAll(c, terms, n, now);
      WishOf(c, terms, n - 1);
      CountedNext(c, terms, n - 1, now);
      hide ConsiderAll, WantsNow, WantsDigest;
      assert (exists i: nat :: i < n && WantsNow(c, terms, i)) <==>
             (exists i: nat :: i < n - 1 && WantsNow(c, terms, i)) || WantsNow(c, terms, n - 1);
      assert (exists i: nat :: i < n && WantsDigest(c, terms, i)) <==>
             (exists i: nat :: i < n - 1 && WantsDigest(c, terms, i)) || WantsDigest(c, terms, n - 1);
    }
  }

  lemma WishOf(c: Case, terms: Terms, i: nat)
    requires i < |c.channels|
    ensures var decision := Decide(PreferenceAt(terms.preferences, i), c.channels[i]);
            && (WantsNow(c, terms, i) <==> decision == Deliver) && (WantsDigest(c, terms, i) <==> decision == Batch)
  {
    var x, p := c.channels[i], PreferenceAt(terms.preferences, i);
    assert Wants(c, terms, i, x, p);
  }

  lemma CountedNext(c: Case, terms: Terms, n: nat, now: Instant)
    requires n < |c.channels|
    ensures var decision := Decide(PreferenceAt(terms.preferences, n), c.channels[n]);
            var before, t := ConsiderAll(c, terms, n, now), ConsiderAll(c, terms, n + 1, now);
            && t.immediate == before.immediate + (if decision == Deliver then 1 else 0)
            && t.digested == before.digested + (if decision == Batch then 1 else 0)
            && t.suppressed == before.suppressed + (if decision == Withhold then 1 else 0)
  {
    hide ProviderOf;
  }

  /** The status says what was asked for: `processing` if and only if something is to be delivered at
      once, else `digested` if something waits for the digest, else `suppressed` if anything was
      asked for at all, and a dead letter otherwise. */
  lemma StatusSaysWhatWasWanted(s: Tables, process: nat, intent: IntentId, terms: Terms)
    requires Preparable(s, process, intent, terms)
    ensures var c, status := s.cases[intent], AfterPreparing(s, process, intent, terms).status;
            && (status == Processing <==> exists i: nat :: i < |c.channels| && WantsNow(c, terms, i))
            && (status == Digested <==>
                  !(exists i: nat :: i < |c.channels| && WantsNow(c, terms, i)) &&
                  exists i: nat :: i < |c.channels| && WantsDigest(c, terms, i))
            && (status == DeadLetter <==> c.channels == [])
            && status in {Processing, Digested, Suppressed, DeadLetter}
  {
    var c := s.cases[intent];
    CommitsExactlyWhen(s, process, intent, terms);
    CountsByWish(c, terms, |c.channels|, s.clock);
    IsAfter(s, process, intent, terms);
    hide ConsiderAll, WantsNow, WantsDigest, Step, IsFree, AfterPreparing;
  }
}
