// The scheduler's SQL statements and its polling loop.
module SchedulerRuntime {
  import opened Flags
  import opened Wrappers
  import opened Scheduler
  import opened Replies
  import Retry

  // The run that a claim of a due job starts; none when its row exists already.
  function StartedBy(s: Tables, job: JobId): Option<RunKey> {
    if JobDue(s, job) && RunKey(job, s.jobs[job].nextRunAt.value, 1) !in s.runs
    then Some(RunKey(job, s.jobs[job].nextRunAt.value, 1)) else None
  }

  function Completion(process: nat, key: RunKey, heard: bool): Action {
    if heard then Complete(process, key) else CompleteReplyLost(process, key)
  }

  class Database {
    var jobs: map<JobId, Job>
    var runs: map<RunKey, RunRow>
    var clock: Instant
    var held: map<RunKey, Holder> // not a column: which process still owes a settlement

    ghost function Model(): Tables
      reads this
    {
      Tables(jobs, runs, held, clock)
    }

    constructor (now: Instant)
      ensures Model() == Empty(now)
    {
      jobs, runs, clock, held := map[], map[], now, map[];
    }

    method ClaimRetryRow(holder: Holder, key: RunKey) returns (claimed: bool)
      modifies this
      ensures Model() == Step(old(Model()), ClaimRetry(holder, key))
      ensures claimed == RetryDue(old(Model()), key)
      ensures claimed ==> HeldBy(Model(), holder.process, key)
    {
      claimed := false;
      if key in runs && key.job in jobs {
        var row := runs[key];
        if row.state == Retry && row.nextAttemptAt.Some? && row.nextAttemptAt.value <= clock &&
            jobs[key.job].status != Retired {
          runs := runs[key := row.(state := Processing, worker := holder.worker)];
          held := held[key := holder];
          claimed := true;
        }
      }
    }

    // Starts the occurrence a due job stands at; a conflicting run row means there is nothing to do.
    method ClaimNewRow(holder: Holder, job: JobId) returns (due: bool, created: Option<RunKey>)
      modifies this
      ensures due == JobDue(old(Model()), job) && (created.Some? ==> due)
      ensures Model() == Step(old(Model()), ClaimNew(holder, job))
      ensures created == StartedBy(old(Model()), job)
      ensures created.Some? ==> created.value !in old(runs) && HeldBy(Model(), holder.process, created.value)
    {
      due, created := false, None;
      if job in jobs {
        var row := jobs[job];
        if row.status == Active && row.nextRunAt.Some? && row.nextRunAt.value <= clock {
          var key := RunKey(job, row.nextRunAt.value, 1);
          if key !in runs {
            runs := runs[key := RunRow(Processing, holder.worker, None)];
            held := held[key := holder];
            created := Some(key);
          }
          jobs := jobs[job := Advanced(row, clock)];
          due := true;
        }
      }
    }

    // The completion, which takes effect whether or not its reply is heard.
    method CompleteRun(holder: Holder, key: RunKey, heard: bool) returns (updated: bool)
      requires key in held && held[key] == holder
      modifies this
      ensures updated == Matches(old(Model()), key, holder.worker)
      ensures Model() == Step(old(Model()), Completion(holder.process, key, heard))
    {
      updated := false;
      if key in runs && runs[key].worker == holder.worker && runs[key].state == Processing {
        runs := runs[key := runs[key].(state := Completed)];
        held := if heard then held - {key} else held;
        updated := true;
      }
    }

    method FailRun(holder: Holder, key: RunKey, deadLetter: bool, retryAt: Instant)
      requires key in held && held[key] == holder
      requires deadLetter == Exhausted(Model(), key)
      modifies this
      ensures Model() == Step(old(Model()), Fail(holder.process, key, retryAt))
    {
      if key in runs && runs[key].worker == holder.worker && runs[key].state == Processing {
        runs := runs[key := RunRow(if deadLetter then DeadLetter else Failed, holder.worker,
            if deadLetter then None else Some(retryAt))];
      }
      if !deadLetter && Next(key) !in runs {
        runs := runs[Next(key) := RunRow(Retry, holder.worker, Some(retryAt))];
      }
      held := held - {key};
    }

    // What the rest of the system does while a worker is between two of its own steps.
    method Meanwhile(actions: seq<Action>)
      modifies this
      ensures Model() == Run(old(Model()), actions)
    {
      for i := 0 to |actions|
        invariant Model() == Run(old(Model()), actions[..i])
      {
        assert actions[..i + 1] == actions[..i] + [actions[i]];
        RunStep(old(Model()), actions[..i], actions[i]);
        Perform(actions[i]);
      }
      assert actions[..|actions|] == actions;
    }

    // One step of anybody else.
    method Perform(action: Action)
      modifies this
      ensures Model() == Step(old(Model()), action)
    {
      match action {
        case Tick(to) => clock := if to > clock then to else clock;
        case AddJob(job, definition) =>
          if job !in jobs && WellFormed(definition) {
            jobs := jobs[job := definition];
          }
        case EditJob(job, status, nextRunAt) =>
          if job in jobs {
            jobs := jobs[job := jobs[job].(status := status, nextRunAt := nextRunAt)];
          }
        case ClaimRetry(holder, key) => var _ := ClaimRetryRow(holder, key);
        case ClaimNew(holder, job) => var _, _ := ClaimNewRow(holder, job);
        case Complete(process, key) =>
          if key in held && held[key].process == process {
            var _ := CompleteRun(held[key], key, true);
          }
        case CompleteReplyLost(process, key) =>
          if key in held && held[key].process == process {
            var _ := CompleteRun(held[key], key, false);
          }
        case Fail(process, key, retryAt) =>
          if key in held && held[key].process == process {
            FailRun(held[key], key, key.job in jobs && key.attempt >= jobs[key.job].maximumAttempts, retryAt);
          }
        case Crash(process) => Abandon(process);
      }
    }

    // The process forgets what it claimed; the rows stay as they are.
    method Abandon(process: nat)
      modifies this
      ensures Model() == Step(old(Model()), Crash(process))
    {
      held := map key | key in held && held[key].process != process :: held[key];
    }
  }

  // A step of another process than this one.
  predicate IsForeign(action: Action, process: nat) {
    match action
    case ClaimRetry(holder, _) => holder.process != process
    case ClaimNew(holder, _) => holder.process != process
    case Complete(p, _) => p != process
    case CompleteReplyLost(p, _) => p != process
    case Fail(p, _, _) => p != process
    case Crash(p) => p != process
    case _ => true
  }

  predicate Foreign(actions: seq<Action>, process: nat) {
    forall i :: 0 <= i < |actions| ==> IsForeign(actions[i], process)
  }

  // A step that is not this process's own about this run.
  predicate Spares(action: Action, process: nat, key: RunKey) {
    || IsForeign(action, process)
    || ((action.Complete? || action.CompleteReplyLost? || action.Fail?) && action.process == process &&
        action.key != key)
  }

  predicate AllSpare(actions: seq<Action>, process: nat, key: RunKey) {
    forall i :: 0 <= i < |actions| ==> Spares(actions[i], process, key)
  }

  // A run of which this holder still owes the settlement.
  predicate Owed(s: Tables, key: RunKey, holder: Holder) {
    key in s.held && s.held[key] == holder && Outstanding(s, key, holder.worker)
  }

  lemma SparedStep(s: Tables, action: Action, holder: Holder, key: RunKey)
    requires Inv(s) && Spares(action, holder.process, key) && Owed(s, key, holder)
    ensures Owed(Step(s, action), key, holder)
    ensures Matches(s, key, holder.worker) ==> Matches(Step(s, action), key, holder.worker)
  {
    assert Linked(s, key);
    hide Inv, Linked;
  }

  lemma {:induction false} OthersLeaveMineAlone(s: Tables, actions: seq<Action>, holder: Holder, key: RunKey)
    requires Inv(s) && AllSpare(actions, holder.process, key) && Owed(s, key, holder)
    ensures Owed(Run(s, actions), key, holder)
    ensures Matches(s, key, holder.worker) ==> Matches(Run(s, actions), key, holder.worker)
  {
    hide Step, Inv, Spares, Owed, Matches;
    if actions != [] {
      var shorter := actions[..|actions| - 1];
      OthersLeaveMineAlone(s, shorter, holder, key);
      RunKeepsInv(s, shorter);
      SparedStep(Run(s, shorter), actions[|actions| - 1], holder, key);
    }
  }

  lemma ForeignSpares(actions: seq<Action>, process: nat, key: RunKey)
    requires Foreign(actions, process)
    ensures AllSpare(actions, process, key)
  {
  }

  predicate IsMine(s: Tables, key: RunKey, holder: Holder) {
    Owed(s, key, holder) && Matches(s, key, holder.worker)
  }

  // The claimed runs still to be settled are distinct and in the hands of this process.
  predicate Pending(s: Tables, keys: seq<RunKey>, from: nat, holder: Holder) {
    && (forall i :: from <= i < |keys| ==> IsMine(s, keys[i], holder))
    && (forall i, j :: from <= i < j < |keys| ==> keys[i] != keys[j])
  }

  lemma RunNothing(s: Tables)
    ensures Run(s, []) == s
  {
  }

  // What else is claimed leaves a run in hand alone.
  lemma ClaimSpares(s: Tables, action: Action, holder: Holder, key: RunKey)
    requires (action.ClaimRetry? || action.ClaimNew?) && IsMine(s, key, holder)
    ensures IsMine(Step(s, action), key, holder)
  {
  }

  lemma RetryPends(s: Tables, holder: Holder, key: RunKey, keys: seq<RunKey>)
    requires Inv(s) && Pending(s, keys, 0, holder)
    ensures var s' := Step(s, ClaimRetry(holder, key));
            && Pending(s', keys, 0, holder)
            && (RetryDue(s, key) ==> Pending(s', keys + [key], 0, holder))
  {
    forall i | 0 <= i < |keys|
      ensures IsMine(Step(s, ClaimRetry(holder, key)), keys[i], holder)
      ensures RetryDue(s, key) ==> keys[i] != key
    {
      assert IsMine(s, keys[i], holder);
      ClaimSpares(s, ClaimRetry(holder, key), holder, keys[i]);
    }
  }

  // A new claim leaves what was pending pending, and adds to it.
  lemma NewClaimPends(s: Tables, holder: Holder, job: JobId, keys: seq<RunKey>, created: Option<RunKey>)
    requires Inv(s) && Pending(s, keys, 0, holder) && created == StartedBy(s, job)
    ensures Pending(Step(s, Action.ClaimNew(holder, job)), keys, 0, holder)
    ensures created.Some? ==> Pending(Step(s, Action.ClaimNew(holder, job)), keys + [created.value], 0, holder)
  {
    forall i | 0 <= i < |keys|
      ensures IsMine(Step(s, Action.ClaimNew(holder, job)), keys[i], holder)
      ensures created.Some? ==> keys[i] != created.value
    {
      assert IsMine(s, keys[i], holder);
      ClaimSpares(s, Action.ClaimNew(holder, job), holder, keys[i]);
    }
  }

  // What a scheduler does with runs: its handlers, true when the handler returns and false when
  // it throws, and its backoff.
  datatype Policy = Policy(handlers: map<string, RunKey -> bool>, retryBaseSeconds: nat, retryMaximumSeconds: nat)

  predicate Succeeds(policy: Policy, s: Tables, key: RunKey) {
    key.job in s.jobs && s.jobs[key.job].handlerKey in policy.handlers &&
        policy.handlers[s.jobs[key.job].handlerKey](key)
  }

  // What everybody else does during the turns, which replies to completions and to failures are
  // heard, and the jitter's digest.
  datatype World = World(others: nat -> seq<Action>, replies: nat -> Reply, failureReplies: nat -> Reply,
                         digest: RunKey -> nat)

  // The run of the try block, given whether the handler returns.
  function Attempted(succeeds: bool, process: nat, key: RunKey, duringHandler: seq<Action>, reply: Reply): seq<Action> {
    if !succeeds || reply == LostBeforeCommit then duringHandler
    else duringHandler + [Completion(process, key, reply == Answered)]
  }

  function Failure(policy: Policy, now: Instant, process: nat, key: RunKey, digest: RunKey -> nat): Action {
    var delay := Retry.DelaySeconds(key.attempt, policy.retryBaseSeconds, policy.retryMaximumSeconds, digest(key));
    Fail(process, key, Retry.NextAttemptAt(now, delay))
  }

  // The failure transaction; when it is not answered the round ends and its runs are forgotten.
  function Recovered(failure: Action, process: nat, beforeFailure: seq<Action>, reply: Reply): seq<Action> {
    beforeFailure + (match reply
                     case Answered => [failure]
                     case LostAfterCommit => [failure, Crash(process)]
                     case LostBeforeCommit => [Crash(process)])
  }

  /** What one turn must do from tables s: whether the run counts as completed, and the actions. */
  function TurnOf(policy: Policy, s: Tables, process: nat, key: RunKey, n: nat, world: World): (bool, seq<Action>) {
    var during, beforeFailure := world.others(2 * n), world.others(2 * n + 1);
    var succeeds := Succeeds(policy, Run(s, during), key);
    var attempted := Attempted(succeeds, process, key, during, world.replies(n));
    if succeeds && world.replies(n) == Answered then (true, attempted)
    else
      var now := Run(s, attempted + beforeFailure).clock;
      (false, attempted + Recovered(Failure(policy, now, process, key, world.digest), process, beforeFailure,
                                    world.failureReplies(n)))
  }

  // The turns for the runs, one after the other, and which of them complete.
  function Turns(policy: Policy, s: Tables, process: nat, keys: seq<RunKey>, world: World): (seq<bool>, seq<Action>) {
    if keys == [] then ([], [])
    else
      var n := |keys| - 1;
      var (flags, trace) := Turns(policy, s, process, keys[..n], world);
      var (done, turn) := TurnOf(policy, Run(s, trace), process, keys[n], n, world);
      (flags + [done], trace + turn)
  }

  lemma TurnsNext(policy: Policy, s: Tables, process: nat, keys: seq<RunKey>, key: RunKey, world: World)
    ensures var (flags, trace) := Turns(policy, s, process, keys, world);
            var (done, turn) := TurnOf(policy, Run(s, trace), process, key, |keys|, world);
            Turns(policy, s, process, keys + [key], world) == (flags + [done], trace + turn)
  {
    hide Step, Run, TurnOf;
    assert (keys + [key])[..|keys|] == keys;
  }

  // ------------------------------------------------------------------ whose handler decides

  // Whether the job's handler is registered and returns.
  predicate Returns(policy: Policy, s: Tables, key: RunKey) {
    key.job in s.jobs &&
    var handlerKey := s.jobs[key.job].handlerKey;
    handlerKey in policy.handlers && policy.handlers[handlerKey](key)
  }

  // A failure of the run at the time the backoff asks for.
  ghost predicate FailsRightly(policy: Policy, process: nat, key: RunKey, now: Instant, action: Action) {
    && action.Fail? && action.process == process && action.key == key
    && Retry.IsBackedOff(now, action.retryAt, key.attempt, policy.retryBaseSeconds, policy.retryMaximumSeconds)
  }

  // The completion that is sent, if any, as far as its reply is heard.
  function Sent(process: nat, key: RunKey, returned: bool, reply: Reply): seq<Action> {
    if !returned || reply == LostBeforeCommit then []
    else if reply == Answered then [Complete(process, key)]
    else [CompleteReplyLost(process, key)]
  }

  // What a failure, if it reaches the database, and the end of the round, if it is not answered, do.
  function Ended(process: nat, failure: Action, reply: Reply): seq<Action> {
    (if reply == LostBeforeCommit then [] else [failure]) + if reply == Answered then [] else [Crash(process)]
  }

  /** A run counts as completed if and only if its job's handler is registered and returned and the
      reply was heard. It is completed only when the handler returned; otherwise the turn fails it,
      at the backoff's time. */
  lemma HandlersDecide(policy: Policy, s: Tables, process: nat, key: RunKey, n: nat, world: World)
      returns (failure: Action)
    requires world.digest(key) <= Retry.DIGEST_MAXIMUM
    ensures var (done, turn) := TurnOf(policy, s, process, key, n, world);
            var during, before := world.others(2 * n), world.others(2 * n + 1);
            var returned := Returns(policy, Run(s, during), key);
            var tried := during + Sent(process, key, returned, world.replies(n));
            && (done <==> returned && world.replies(n) == Answered)
            && turn == (if done then tried else tried + (before + Ended(process, failure, world.failureReplies(n))))
            && FailsRightly(policy, process, key, Run(s, tried + before).clock, failure)
  {
    hide Run, Retry.DelaySeconds, Retry.NextAttemptAt, Retry.IsBackedOff;
    var during, before := world.others(2 * n), world.others(2 * n + 1);
    var returned := Returns(policy, Run(s, during), key);
    var tried := during + Sent(process, key, returned, world.replies(n));
    assert Attempted(returned, process, key, during, world.replies(n)) == tried;
    var now := Run(s, tried + before).clock;
    Retry.NextAttemptIsBackedOff(now, key.attempt, policy.retryBaseSeconds, policy.retryMaximumSeconds,
        world.digest(key));
    failure := Failure(policy, now, process, key, world.digest);
    RecoveredEnds(failure, process, before, world.failureReplies(n));
  }

  lemma RecoveredEnds(failure: Action, process: nat, before: seq<Action>, reply: Reply)
    ensures Recovered(failure, process, before, reply) == before + Ended(process, failure, reply)
  {
  }

  // ------------------------------------------------------------------ what a turn achieves

  // In hand after the try block, unless it completed.
  lemma AttemptLeavesOwed(policy: Policy, s: Tables, holder: Holder, key: RunKey, during: seq<Action>, reply: Reply)
    requires Inv(s) && IsMine(s, key, holder) && Foreign(during, holder.process)
    ensures var succeeds := Succeeds(policy, Run(s, during), key);
            var after := Run(s, Attempted(succeeds, holder.process, key, during, reply));
            && Inv(after)
            && (if succeeds && reply == Answered then IsCompleted(after, key)
                else Owed(after, key, holder) && (reply != LostAfterCommit ==> Matches(after, key, holder.worker)))
  {
    hide Run, Succeeds;
    var succeeds := Succeeds(policy, Run(s, during), key);
    ForeignSpares(during, holder.process, key);
    OthersLeaveMineAlone(s, during, holder, key);
    RunKeepsInv(s, during);
    RunStep(s, during, Completion(holder.process, key, reply == Answered));
    CompletionCompletes(Run(s, during), holder, key, reply == Answered);
  }

  predicate IsCompleted(s: Tables, key: RunKey) {
    key in s.runs && s.runs[key].state == Completed
  }

  lemma CompletionCompletes(s: Tables, holder: Holder, key: RunKey, heard: bool)
    requires Inv(s) && IsMine(s, key, holder)
    ensures var after := Step(s, Completion(holder.process, key, heard));
            Inv(after) && IsCompleted(after, key) && (!heard ==> Owed(after, key, holder))
  {
    StepKeepsInv(s, Completion(holder.process, key, heard));
    NextNeedsAnEnd(s, key);
    hide Inv, Linked;
  }

  lemma FailureSettles(s: Tables, holder: Holder, key: RunKey, retryAt: Instant)
    requires Inv(s) && Owed(s, key, holder)
    ensures var after := Step(s, Fail(holder.process, key, retryAt));
            && Inv(after) && Settled(after, key)
            && (Matches(s, key, holder.worker) ==> after.runs[key].state in {Failed, DeadLetter})
  {
    StepKeepsInv(s, Fail(holder.process, key, retryAt));
    hide Inv;
  }

  // A turn that does not throw settles its run, as completed exactly when it says so, unless the
  // reply to a completion was lost.
  predicate Reported(s: Tables, key: RunKey, done: bool, reply: Reply) {
    && Settled(s, key) && (done ==> s.runs[key].state == Completed)
    && (reply != LostAfterCommit ==> (done <==> s.runs[key].state == Completed))
  }

  lemma RecoverySettles(s: Tables, holder: Holder, key: RunKey, beforeFailure: seq<Action>, failure: Action,
                        reply: Reply)
    requires Inv(s) && Owed(s, key, holder) && (reply != LostAfterCommit ==> Matches(s, key, holder.worker))
    requires Foreign(beforeFailure, holder.process)
    requires failure.Fail? && failure.process == holder.process && failure.key == key
    ensures Reported(Run(s, beforeFailure + [failure]), key, false, reply)
  {
    hide Run;
    ForeignSpares(beforeFailure, holder.process, key);
    OthersLeaveMineAlone(s, beforeFailure, holder, key);
    RunKeepsInv(s, beforeFailure);
    RunStep(s, beforeFailure, failure);
    FailureSettles(Run(s, beforeFailure), holder, key, failure.retryAt);
  }

  lemma TurnReports(policy: Policy, s: Tables, holder: Holder, key: RunKey, n: nat, world: World)
    requires Inv(s) && IsMine(s, key, holder)
    requires Foreign(world.others(2 * n), holder.process) && Foreign(world.others(2 * n + 1), holder.process)
    ensures var (done, turn) := TurnOf(policy, s, holder.process, key, n, world);
            done || world.failureReplies(n) == Answered ==> Reported(Run(s, turn), key, done, world.replies(n))
  {
    hide Run, Succeeds, Attempted, Owed;
    var during, beforeFailure := world.others(2 * n), world.others(2 * n + 1);
    var attempted := Attempted(Succeeds(policy, Run(s, during), key), holder.process, key, during, world.replies(n));
    AttemptLeavesOwed(policy, s, holder, key, during, world.replies(n));
    var (done, turn) := TurnOf(policy, s, holder.process, key, n, world);
    if !done && world.failureReplies(n) == Answered {
      var failure := Failure(policy, Run(s, attempted + beforeFailure).clock, holder.process, key, world.digest);
      RunAppend(s, attempted, beforeFailure + [failure]);
      RecoverySettles(Run(s, attempted), holder, key, beforeFailure, failure, world.replies(n));
    }
  }

  // The other runs in hand stay in hand, unless the round ends.
  lemma TurnSparesOthers(policy: Policy, s: Tables, holder: Holder, key: RunKey, other: RunKey, n: nat, world: World)
    requires Inv(s) && IsMine(s, other, holder) && other != key
    requires Foreign(world.others(2 * n), holder.process) && Foreign(world.others(2 * n + 1), holder.process)
    ensures var (done, turn) := TurnOf(policy, s, holder.process, key, n, world);
            done || world.failureReplies(n) == Answered ==> IsMine(Run(s, turn), other, holder)
  {
    hide Run, Succeeds, Owed, Matches, Step;
    var (done, turn) := TurnOf(policy, s, holder.process, key, n, world);
    if done || world.failureReplies(n) == Answered {
      assert AllSpare(turn, holder.process, other);
      OthersLeaveMineAlone(s, turn, holder, other);
    }
  }

  // The claims try the first visible run rows, or job rows, in order.
  predicate VisitsRuns(claims: seq<Action>, holder: Holder, visible: seq<RunKey>) {
    |claims| <= |visible| && forall i :: 0 <= i < |claims| ==> claims[i] == ClaimRetry(holder, visible[i])
  }

  predicate VisitsJobs(claims: seq<Action>, holder: Holder, visible: seq<JobId>) {
    |claims| <= |visible| && forall i :: 0 <= i < |claims| ==> claims[i] == Action.ClaimNew(holder, visible[i])
  }

  // The retries that a run of claims wins.
  function Retried(s: Tables, claims: seq<Action>): seq<RunKey> {
    if claims == [] then []
    else
      var earlier, last := claims[..|claims| - 1], claims[|claims| - 1];
      Retried(s, earlier) + if last.ClaimRetry? && RetryDue(Run(s, earlier), last.key) then [last.key] else []
  }

  lemma RetriedNext(s: Tables, claims: seq<Action>, holder: Holder, key: RunKey)
    ensures Retried(s, claims + [ClaimRetry(holder, key)]) == Retried(s, claims) +
            if RetryDue(Run(s, claims), key) then [key] else []
    ensures Run(s, claims + [ClaimRetry(holder, key)]) == Step(Run(s, claims), ClaimRetry(holder, key))
  {
    assert (claims + [ClaimRetry(holder, key)])[..|claims|] == claims;
  }

  // The runs that a run of claims starts, and how many due jobs it meets.
  function Started(s: Tables, claims: seq<Action>): (seq<RunKey>, nat) {
    if claims == [] then ([], 0)
    else
      var earlier, last := claims[..|claims| - 1], claims[|claims| - 1];
      var (keys, due) := Started(s, earlier);
      var now := Run(s, earlier);
      if !last.ClaimNew? || !JobDue(now, last.job) then (keys, due)
      else (keys + (if StartedBy(now, last.job).Some? then [StartedBy(now, last.job).value] else []), due + 1)
  }

  lemma StartedNext(s: Tables, claims: seq<Action>, holder: Holder, job: JobId)
    ensures var (keys, due) := Started(s, claims);
            var now := Run(s, claims);
            Started(s, claims + [Action.ClaimNew(holder, job)]) ==
            if !JobDue(now, job) then (keys, due)
            else (keys + (if StartedBy(now, job).Some? then [StartedBy(now, job).value] else []), due + 1)
    ensures Run(s, claims + [Action.ClaimNew(holder, job)]) == Step(Run(s, claims), Action.ClaimNew(holder, job))
  {
    hide JobDue, StartedBy;
    assert (claims + [Action.ClaimNew(holder, job)])[..|claims|] == claims;
  }

  // The runs that had a turn are settled as their turns say, but for one that ended the round.
  predicate AllReported(s: Tables, keys: seq<RunKey>, flags: seq<bool>, world: World) {
    |flags| <= |keys| && forall i :: 0 <= i < |flags| && !Throws(flags, world.failureReplies, i) ==>
      Reported(s, keys[i], flags[i], world.replies(i))
  }

  lemma ReportedStay(s: Tables, actions: seq<Action>, keys: seq<RunKey>, flags: seq<bool>, world: World)
    requires Inv(s) && AllReported(s, keys, flags, world)
    ensures AllReported(Run(s, actions), keys, flags, world)
  {
    hide Inv;
    forall i | 0 <= i < |flags| && !Throws(flags, world.failureReplies, i)
      ensures Reported(Run(s, actions), keys[i], flags[i], world.replies(i))
    {
      assert Reported(s, keys[i], flags[i], world.replies(i));
      SettledRunsStay(s, actions, keys[i]);
    }
  }

  lemma ReportedNext(s: Tables, keys: seq<RunKey>, flags: seq<bool>, done: bool, world: World)
    requires AllReported(s, keys, flags, world) && |flags| < |keys|
    requires done || world.failureReplies(|flags|) == Answered ==>
             Reported(s, keys[|flags|], done, world.replies(|flags|))
    ensures AllReported(s, keys, flags + [done], world)
  {
    hide Reported;
    forall i | 0 <= i < |flags| && !Throws(flags + [done], world.failureReplies, i)
      ensures Reported(s, keys[i], flags[i], world.replies(i))
    {
      assert !Throws(flags, world.failureReplies, i);
    }
  }

  // The loop has taken its first i turns, from tables s to tables now.
  predicate Turned(policy: Policy, s: Tables, now: Tables, keys: seq<RunKey>, i: nat, process: nat, world: World,
                   flags: seq<bool>, trace: seq<Action>, completed: nat)
    requires i <= |keys|
  {
    && (flags, trace) == Turns(policy, s, process, keys[..i], world)
    && |flags| == i && completed == CountTrue(flags)
    && Inv(now) && now == Run(s, trace) && AllReported(now, keys, flags, world)
  }

  lemma StartOfTurns(policy: Policy, s: Tables, keys: seq<RunKey>, process: nat, world: World)
    requires Inv(s)
    ensures Turned(policy, s, s, keys, 0, process, world, [], [], 0) && NoneThrows([], world.failureReplies)
  {
  }

  lemma Executed(policy: Policy, s: Tables, now: Tables, keys: seq<RunKey>, i: nat, process: nat, world: World,
                 flags: seq<bool>, trace: seq<Action>, completed: nat)
    requires i <= |keys| && Turned(policy, s, now, keys, i, process, world, flags, trace, completed)
    ensures (flags, trace) == Turns(policy, s, process, keys[..i], world)
    ensures |flags| == i && completed == CountTrue(flags)
    ensures Inv(now) && now == Run(s, trace) && AllReported(now, keys, flags, world)
  {
  }

  lemma IsTurned(policy: Policy, s: Tables, now: Tables, keys: seq<RunKey>, i: nat, process: nat, world: World,
                 flags: seq<bool>, trace: seq<Action>, completed: nat)
    requires i <= |keys| && (flags, trace) == Turns(policy, s, process, keys[..i], world)
    requires |flags| == i && completed == CountTrue(flags)
    requires Inv(now) && now == Run(s, trace) && AllReported(now, keys, flags, world)
    ensures Turned(policy, s, now, keys, i, process, world, flags, trace, completed)
  {
  }

  predicate AllForeign(world: World, process: nat, n: nat) {
    Foreign(world.others(2 * n), process) && Foreign(world.others(2 * n + 1), process)
  }

  // One turn of the loop: what it settles, what it reports and what it leaves pending.
  lemma ExecuteNext(policy: Policy, s: Tables, now: Tables, keys: seq<RunKey>, i: nat, holder: Holder, world: World,
                    flags: seq<bool>, trace: seq<Action>, completed: nat)
    requires i < |keys| && Turned(policy, s, now, keys, i, holder.process, world, flags, trace, completed)
    requires Pending(now, keys, i, holder) && AllForeign(world, holder.process, i)
    ensures var (done, turn) := TurnOf(policy, now, holder.process, keys[i], i, world);
            && Turned(policy, s, Run(now, turn), keys, i + 1, holder.process, world, flags + [done], trace + turn,
                      if done then completed + 1 else completed)
            && (done || world.failureReplies(i) == Answered ==> Pending(Run(now, turn), keys, i + 1, holder))
  {
    hide *;
    var (done, turn) := TurnOf(policy, now, holder.process, keys[i], i, world);
    assert keys[..i + 1] == keys[..i] + [keys[i]];
    Executed(policy, s, now, keys, i, holder.process, world, flags, trace, completed);
    TurnsNext(policy, s, holder.process, keys[..i], keys[i], world);
    RunAppend(s, trace, turn);
    RunKeepsInv(now, turn);
    CountNext(flags, done);
    IsPending(now, keys, i, holder);
    TurnReportsHere(policy, now, holder, keys[i], i, world);
    ReportedStay(now, turn, keys, flags, world);
    ReportedNext(Run(now, turn), keys, flags, done, world);
    IsTurned(policy, s, Run(now, turn), keys, i + 1, holder.process, world, flags + [done], trace + turn,
        if done then completed + 1 else completed);
    PendingAfterTurn(policy, now, keys, i, holder, world);
  }

  lemma TurnReportsHere(policy: Policy, s: Tables, holder: Holder, key: RunKey, n: nat, world: World)
    requires Inv(s) && IsMine(s, key, holder) && AllForeign(world, holder.process, n)
    ensures var (done, turn) := TurnOf(policy, s, holder.process, key, n, world);
            done || world.failureReplies(n) == Answered ==> Reported(Run(s, turn), key, done, world.replies(n))
  {
    hide Inv, IsMine, TurnOf, Reported, Foreign;
    TurnReports(policy, s, holder, key, n, world);
  }

  lemma IsPending(s: Tables, keys: seq<RunKey>, i: nat, holder: Holder)
    requires i < |keys| && Pending(s, keys, i, holder)
    ensures IsMine(s, keys[i], holder)
  {
  }

  lemma PendingAfterTurn(policy: Policy, s: Tables, keys: seq<RunKey>, i: nat, holder: Holder, world: World)
    requires i < |keys| && Inv(s) && Pending(s, keys, i, holder) && AllForeign(world, holder.process, i)
    ensures var (done, turn) := TurnOf(policy, s, holder.process, keys[i], i, world);
            done || world.failureReplies(i) == Answered ==> Pending(Run(s, turn), keys, i + 1, holder)
  {
    hide IsMine, TurnOf, Inv, Run, Foreign;
    forall j | i < j < |keys| {
      TurnSparesOthers(policy, s, holder, keys[i], keys[j], i, world);
    }
  }

  // The claims so far, from tables s to tables now: the runs started follow the retries, and
  // `taken` counts the due jobs too.
  predicate Starting(s: Tables, now: Tables, holder: Holder, visible: seq<JobId>, retries: seq<RunKey>,
                     keys: seq<RunKey>,
                     claims: seq<Action>, taken: nat)
  {
    && VisitsJobs(claims, holder, visible)
    && keys == retries + Started(s, claims).0 && taken == |retries| + Started(s, claims).1
    && |keys| <= taken && Pending(now, keys, 0, holder)
    && Inv(now) && now == Run(s, claims)
  }

  lemma StartWithRetries(s: Tables, holder: Holder, visible: seq<JobId>, retries: seq<RunKey>)
    requires Inv(s) && Pending(s, retries, 0, holder)
    ensures Starting(s, s, holder, visible, retries, retries, [], |retries|)
  {
  }

  lemma StartNext(s: Tables, now: Tables, holder: Holder, visible: seq<JobId>, retries: seq<RunKey>, keys: seq<RunKey>,
                  claims: seq<Action>, taken: nat)
    requires Starting(s, now, holder, visible, retries, keys, claims, taken) && |claims| < |visible|
    ensures var job := visible[|claims|];
            var created := StartedBy(now, job);
            Starting(s, Step(now, Action.ClaimNew(holder, job)), holder, visible, retries,
                     if created.Some? then keys + [created.value] else keys, claims + [Action.ClaimNew(holder, job)],
                     if JobDue(now, job) then taken + 1 else taken)
    ensures StartedBy(now, visible[|claims|]).Some? ==> JobDue(now, visible[|claims|])
  {
    var job := visible[|claims|];
    StartedIsDue(now, job);
    hide Step, Run, JobDue, Inv, Pending, StartedBy;
    StartedNext(s, claims, holder, job);
    StepKeepsInv(now, Action.ClaimNew(holder, job));
    NewClaimPends(now, holder, job, keys, StartedBy(now, job));
  }

  lemma StartedIsDue(s: Tables, job: JobId)
    ensures StartedBy(s, job).Some? ==> JobDue(s, job)
  {
  }

  lemma StartedAll(s: Tables, now: Tables, holder: Holder, visible: seq<JobId>, retries: seq<RunKey>, keys: seq<RunKey>,
                   claims: seq<Action>, taken: nat)
    requires Starting(s, now, holder, visible, retries, keys, claims, taken)
    ensures VisitsJobs(claims, holder, visible) && Pending(now, keys, 0, holder) && Inv(now) && now == Run(s, claims)
    ensures var (started, due) := Started(s, claims);
            keys == retries + started && taken == |retries| + due && |started| <= due
  {
  }

  class WorkerScheduler {
    const holder: Holder
    const batchSize: nat
    const retryBaseSeconds: nat
    const retryMaximumSeconds: nat
    var handlers: map<string, RunKey -> bool>

    function Rules(): Policy
      reads this
    {
      Policy(handlers, retryBaseSeconds, retryMaximumSeconds)
    }

    constructor (holder: Holder, batchSize: nat, retryBaseSeconds: nat, retryMaximumSeconds: nat,
                 reconciliation: RunKey -> bool)
      ensures this.holder == holder && this.batchSize == batchSize
      ensures Rules() == Policy(map["platform.event-reconciliation" := reconciliation], retryBaseSeconds,
              retryMaximumSeconds)
    {
      this.holder, this.batchSize := holder, batchSize;
      this.retryBaseSeconds, this.retryMaximumSeconds := retryBaseSeconds, retryMaximumSeconds;
      var initial: map<string, RunKey -> bool> := map["platform.event-reconciliation" := reconciliation];
      this.handlers := initial;
    }

    method Register(handlerKey: string, handler: RunKey -> bool) returns (registered: bool)
      modifies this
      ensures registered == (handlerKey !in old(handlers))
      ensures handlers == if registered then old(handlers)[handlerKey := handler] else old(handlers)
    {
      registered := handlerKey !in handlers;
      if registered {
        handlers := handlers[handlerKey := handler];
      }
    }

    /** `visible` lists the run rows the query can lock, in its ORDER BY order: each is tried once,
        until the batch is full. */
    method ClaimRetries(database: Database, visible: seq<RunKey>) returns (keys: seq<RunKey>, ghost claims: seq<Action>)
      requires Inv(database.Model())
      modifies database
      ensures VisitsRuns(claims, holder, visible) && keys == Retried(old(database.Model()), claims)
      ensures |keys| <= batchSize && (|claims| == |visible| || |keys| == batchSize)
      ensures Pending(database.Model(), keys, 0, holder)
      ensures Inv(database.Model()) && database.Model() == Run(old(database.Model()), claims)
    {
      ghost var s := database.Model();
      keys, claims := [], [];
      RunNothing(s);
      assert Retried(s, []) == [];
      hide Step, Run, RetryDue, Inv, Retried, Pending;
      for i := 0 to |visible|
        invariant |claims| == i && VisitsRuns(claims, holder, visible) && keys == Retried(s, claims)
        invariant |keys| <= batchSize && Pending(database.Model(), keys, 0, holder)
        invariant Inv(database.Model()) && database.Model() == Run(s, claims)
      {
        if |keys| == batchSize {
          break;
        }
        ghost var before := database.Model();
        RetriedNext(s, claims, holder, visible[i]);
        StepKeepsInv(before, ClaimRetry(holder, visible[i]));
        RetryPends(before, holder, visible[i], keys);
        var claimed := database.ClaimRetryRow(holder, visible[i]);
        claims := claims + [ClaimRetry(holder, visible[i])];
        if claimed {
          keys := keys + [visible[i]];
        }
      }
    }

    /** `visible` lists the job rows the query can lock, in its ORDER BY order: each is tried once,
        until the batch is full of retries and due jobs. */
    method ClaimNew(database: Database, visible: seq<JobId>, retries: seq<RunKey>)
      returns (keys: seq<RunKey>, ghost claims: seq<Action>)
      requires Inv(database.Model()) && |retries| <= batchSize && Pending(database.Model(), retries, 0, holder)
      modifies database
      ensures VisitsJobs(claims, holder, visible)
      ensures var (started, due) := Started(old(database.Model()), claims);
              keys == retries + started && |retries| + due <= batchSize && |started| <= due &&
              (|claims| == |visible| || |retries| + due == batchSize)
      ensures Pending(database.Model(), keys, 0, holder)
      ensures Inv(database.Model()) && database.Model() == Run(old(database.Model()), claims)
    {
      ghost var s := database.Model();
      keys, claims := retries, [];
      var taken := |retries|;
      StartWithRetries(s, holder, visible, retries);
      hide Step, Run, JobDue, Inv, Started, Pending, Starting, VisitsJobs, StartedBy;
      for i := 0 to |visible|
        invariant |claims| == i && 0 <= taken <= batchSize
        invariant Starting(s, database.Model(), holder, visible, retries, keys, claims, taken)
      {
        if taken == batchSize {
          break;
        }
        ghost var before := database.Model();
        var due, created := database.ClaimNewRow(holder, visible[i]);
        StartNext(s, before, holder, visible, retries, keys, claims, taken);
        claims := claims + [Action.ClaimNew(holder, visible[i])];
        if due {
          taken := taken + 1;
        }
        if created.Some? {
          keys := keys + [created.value];
        }
      }
      StartedAll(s, database.Model(), holder, visible, retries, keys, claims, taken);
    }

    /** The try block: the handler, then the completion. The run is still this process's when the
        completion is sent, so `scheduled-run-lease-lost` is never thrown. */
    method Attempt(database: Database, key: RunKey, duringHandler: seq<Action>, reply: Reply)
      returns (completed: bool, ghost trace: seq<Action>)
      requires Inv(database.Model()) && IsMine(database.Model(), key, holder)
      requires Foreign(duringHandler, holder.process)
      modifies database
      ensures var succeeds := Succeeds(Rules(), Run(old(database.Model()), duringHandler), key);
              && trace == Attempted(succeeds, holder.process, key, duringHandler, reply)
              && (completed <==> succeeds && reply == Answered)
      ensures database.Model() == Run(old(database.Model()), trace) && Inv(database.Model())
      ensures !completed ==> Owed(database.Model(), key, holder)
    {
      hide Run, Inv, Foreign, Owed, Matches, Step;
      ghost var s := database.Model();
      InHand(s, key, holder);
      AttemptLeavesOwed(Rules(), s, holder, key, duringHandler, reply);
      ForeignSpares(duringHandler, holder.process, key);
      OthersLeaveMineAlone(s, duringHandler, holder, key);
      RunKeepsInv(s, duringHandler);
      RunStep(s, duringHandler, Completion(holder.process, key, reply == Answered));
      database.Meanwhile(duringHandler);
      OwedIsHeld(database.Model(), key, holder);
      completed, trace := false, duringHandler;
      var handlerKey := database.jobs[key.job].handlerKey;
      if handlerKey in handlers && handlers[handlerKey](key) && reply != LostBeforeCommit {
        var updated := database.CompleteRun(holder, key, reply == Answered);
        assert updated;
        completed := reply == Answered;
        trace := duringHandler + [Completion(holder.process, key, reply == Answered)];
      }
    }

    /** The catch block: the failure transaction. When it is not answered the round ends with an
        exception, and this process forgets what it had claimed. */
    method Recover(database: Database, key: RunKey, beforeFailure: seq<Action>, reply: Reply, digest: RunKey -> nat)
      returns (thrown: bool, ghost trace: seq<Action>)
      requires Inv(database.Model()) && Owed(database.Model(), key, holder) && Foreign(beforeFailure, holder.process)
      modifies database
      ensures thrown <==> reply != Answered
      ensures var now := Run(old(database.Model()), beforeFailure).clock;
              var failure := Failure(Rules(), now, holder.process, key, digest);
              trace == Recovered(failure, holder.process, beforeFailure, reply)
      ensures database.Model() == Run(old(database.Model()), trace)
    {
      hide Run, Inv, Foreign, Owed, Matches, Step, Exhausted;
      ghost var s := database.Model();
      ForeignSpares(beforeFailure, holder.process, key);
      OthersLeaveMineAlone(s, beforeFailure, holder, key);
      RunKeepsInv(s, beforeFailure);
      database.Meanwhile(beforeFailure);
      OwedIsHeld(database.Model(), key, holder);
      thrown, trace := reply != Answered, beforeFailure;
      if reply != LostBeforeCommit {
        var delay := Retry.DelaySeconds(key.attempt, retryBaseSeconds, retryMaximumSeconds, digest(key));
        var retryAt := Retry.NextAttemptAt(database.clock, delay);
        RunStep(s, trace, Fail(holder.process, key, retryAt));
        IsExhausted(database.Model(), key);
        database.FailRun(holder, key, key.attempt >= database.jobs[key.job].maximumAttempts, retryAt);
        trace := trace + [Fail(holder.process, key, retryAt)];
      }
      if thrown {
        RunStep(s, trace, Crash(holder.process));
        database.Abandon(holder.process);
        trace := trace + [Crash(holder.process)];
      }
    }

    // The n-th run of a round: the try block and, unless that completed, the catch block.
    method Execute(database: Database, key: RunKey, n: nat, world: World)
      returns (completed: bool, thrown: bool, ghost trace: seq<Action>)
      requires Inv(database.Model()) && IsMine(database.Model(), key, holder) && AllForeign(world, holder.process, n)
      modifies database
      ensures (completed, trace) == TurnOf(Rules(), old(database.Model()), holder.process, key, n, world)
      ensures thrown <==> !completed && world.failureReplies(n) != Answered
      ensures database.Model() == Run(old(database.Model()), trace)
    {
      hide Run, Inv, Foreign, Owed, Matches, Step, Succeeds, Attempted, Failure, Recovered;
      thrown := false;
      completed, trace := Attempt(database, key, world.others(2 * n), world.replies(n));
      if !completed {
        RunAppend(old(database.Model()), trace, world.others(2 * n + 1));
        ghost var recovery;
        thrown, recovery := Recover(database, key, world.others(2 * n + 1), world.failureReplies(n), world.digest);
        RunAppend(old(database.Model()), trace, recovery);
        trace := trace + recovery;
      }
    }

    // The loop over the claimed runs.
    method ExecuteAll(database: Database, keys: seq<RunKey>, world: World)
      returns (completed: nat, failed: nat, thrown: bool, ghost flags: seq<bool>, ghost trace: seq<Action>)
      requires Inv(database.Model()) && Pending(database.Model(), keys, 0, holder)
      requires forall n: nat :: AllForeign(world, holder.process, n)
      modifies database
      ensures StopsRightly(flags, world.failureReplies, |keys|, thrown)
      ensures (flags, trace) == Turns(Rules(), old(database.Model()), holder.process, keys[..|flags|], world)
      ensures !thrown ==> completed + failed == |keys| && completed == CountTrue(flags)
      ensures AllReported(database.Model(), keys, flags, world)
      ensures Inv(database.Model()) && database.Model() == Run(old(database.Model()), trace)
    {
      hide Step, Run, Inv, TurnOf, CountTrue, Turns, AllReported, Pending, Turned, IsMine, AllForeign, Throws,
          NoneThrows, StopsRightly;
      ghost var s, rules := database.Model(), Rules();
      completed, failed, thrown, flags, trace := 0, 0, false, [], [];
      StartOfTurns(rules, s, keys, holder.process, world);
      for i := 0 to |keys|
        invariant Rules() == rules && completed + failed == i && |flags| == i && !thrown
        invariant Turned(rules, s, database.Model(), keys, i, holder.process, world, flags, trace, completed)
        invariant Pending(database.Model(), keys, i, holder) && NoneThrows(flags, world.failureReplies)
      {
        ghost var before := database.Model();
        Executed(rules, s, before, keys, i, holder.process, world, flags, trace, completed);
        IsPending(before, keys, i, holder);
        ghost var turn;
        var done;
        done, thrown, turn := Execute(database, keys[i], i, world);
        ExecuteNext(rules, s, before, keys, i, holder, world, flags, trace, completed);
        StopsNext(flags, done, world.failureReplies, |keys|, thrown);
        flags, trace := flags + [done], trace + turn;
        if thrown {
          Executed(rules, s, database.Model(), keys, i + 1, holder.process, world, flags, trace, completed);
          return;
        }
        if done {
          completed := completed + 1;
        } else {
          failed := failed + 1;
        }
      }
      StopsAtTheEnd(flags, world.failureReplies);
      Executed(rules, s, database.Model(), keys, |keys|, holder.process, world, flags, trace, completed);
    }

    /** The round does exactly this: it claims the due retries and then new occurrences up to the
        batch size, takes one turn for each and counts the turns, whatever other processes do
        meanwhile and whichever replies are lost. It ends early, with an exception, exactly after
        a failure transaction that was not answered; every run with another turn is settled. */
    method ProcessDue(database: Database, visibleRuns: seq<RunKey>, visibleJobs: seq<JobId>, world: World)
      returns (claimed: nat, completed: nat, failed: nat, thrown: bool, ghost retries: seq<Action>,
               ghost starts: seq<Action>, ghost turns: nat)
      requires Inv(database.Model())
      requires forall n: nat :: AllForeign(world, holder.process, n)
      modifies database
      ensures VisitsRuns(retries, holder, visibleRuns) && VisitsJobs(starts, holder, visibleJobs)
      ensures var s := old(database.Model());
              var t := Run(s, retries);
              var keys := Retried(s, retries) + Started(t, starts).0;
              && turns <= |keys| == claimed <= batchSize
              && (|retries| == |visibleRuns| || claimed == batchSize)
              && (|starts| == |visibleJobs| || |Retried(s, retries)| + Started(t, starts).1 == batchSize)
              && var (flags, trace) := Turns(Rules(), Run(t, starts), holder.process, keys[..turns], world);
              && |flags| == turns && StopsRightly(flags, world.failureReplies, claimed, thrown)
              && (!thrown ==> completed == CountTrue(flags) && claimed == completed + failed)
              && database.Model() == Run(Run(t, starts), trace) && AllReported(database.Model(), keys, flags, world)
      ensures Inv(database.Model())
    {
      hide Step, Run, Inv, TurnOf, CountTrue, Turns, Pending, AllReported, Retried, Started, VisitsRuns, VisitsJobs,
          StopsRightly, AllForeign;
      var runs;
      runs, retries := ClaimRetries(database, visibleRuns);
      runs, starts := ClaimNew(database, visibleJobs, runs);
      ghost var flags, trace;
      completed, failed, thrown, flags, trace := ExecuteAll(database, runs, world);
      claimed, turns := |runs|, |flags|;
      StopsWithin(flags, world.failureReplies, claimed, thrown);
    }
  }

  lemma StopsWithin(flags: seq<bool>, replies: nat -> Reply, items: nat, thrown: bool)
    requires StopsRightly(flags, replies, items, thrown)
    ensures |flags| <= items
  {
  }

  lemma InHand(s: Tables, key: RunKey, holder: Holder)
    requires IsMine(s, key, holder)
    ensures Owed(s, key, holder) && Matches(s, key, holder.worker)
  {
  }

  lemma OwedIsHeld(s: Tables, key: RunKey, holder: Holder)
    requires Inv(s) && Owed(s, key, holder)
    ensures key in s.held && s.held[key] == holder && key.job in s.jobs
  {
    assert Linked(s, key);
  }

  lemma IsExhausted(s: Tables, key: RunKey)
    requires key.job in s.jobs
    ensures Exhausted(s, key) <==> key.attempt >= s.jobs[key.job].maximumAttempts
  {
  }
}
