/**
  Scheduled jobs and their runs.  A run row is identified by its job, its occurrence time and
  its attempt number, the columns of the table's UNIQUE constraint.  `held` is history: which
  process was told of a claim and has not yet settled it.  Processes may share a worker name.
  A process that does not hear that its completion took effect goes on to the failure.
*/
module Scheduler {
  import opened Wrappers

  type JobId = string
  type WorkerId = string
  type Instant = int // microseconds

  const SECOND: int := 1_000_000
  const MINIMUM_INTERVAL: nat := 60 // CHECK on scheduled_jobs.interval_seconds

  datatype JobStatus = Active | Paused | Retired

  // `nextRunAt` is None for 'infinity'.
  datatype Job = Job(handlerKey: string, status: JobStatus, nextRunAt: Option<Instant>, intervalSeconds: Option<nat>,
    maximumAttempts: nat)

  datatype RunKey = RunKey(job: JobId, scheduledFor: Instant, attempt: nat)

  datatype RunState = Processing | Completed | Retry | Failed | DeadLetter

  datatype RunRow = RunRow(state: RunState, worker: WorkerId, nextAttemptAt: Option<Instant>)

  datatype Holder = Holder(worker: WorkerId, process: nat)

  datatype Tables = Tables(
    jobs: map<JobId, Job>,
    runs: map<RunKey, RunRow>,
    held: map<RunKey, Holder>,
    clock: Instant)

  datatype Action =
    | Tick(to: Instant)
    | AddJob(job: JobId, definition: Job)
    | EditJob(job: JobId, status: JobStatus, nextRunAt: Option<Instant>) // an operator
    | ClaimRetry(holder: Holder, key: RunKey)
    | ClaimNew(holder: Holder, job: JobId)
    | Complete(process: nat, key: RunKey)
    | CompleteReplyLost(process: nat, key: RunKey) // takes effect, and the process holds on
    | Fail(process: nat, key: RunKey, retryAt: Instant)
    | Crash(process: nat)

  function Next(key: RunKey): RunKey {
    key.(attempt := key.attempt + 1)
  }

  predicate RetryDue(s: Tables, key: RunKey) {
    && key in s.runs && key.job in s.jobs
    && s.runs[key].state == Retry
    && s.runs[key].nextAttemptAt.Some? && s.runs[key].nextAttemptAt.value <= s.clock
    && s.jobs[key.job].status != Retired
  }

  predicate JobDue(s: Tables, job: JobId) {
    && job in s.jobs && s.jobs[job].status == Active
    && s.jobs[job].nextRunAt.Some? && s.jobs[job].nextRunAt.value <= s.clock
  }

  // GREATEST(now(), next_run_at) + interval, or infinity and a pause for a one-off job.
  function Advanced(job: Job, now: Instant): Job
    requires job.nextRunAt.Some?
  {
    match job.intervalSeconds
    case None => job.(nextRunAt := None, status := Paused)
    case Some(seconds) =>
      var from := if now > job.nextRunAt.value then now else job.nextRunAt.value;
      job.(nextRunAt := Some(from + seconds * SECOND))
  }

  // The WHERE clause of both settlements.
  predicate Matches(s: Tables, key: RunKey, worker: WorkerId) {
    key in s.runs && s.runs[key].worker == worker && s.runs[key].state == Processing
  }

  predicate Exhausted(s: Tables, key: RunKey) {
    key.job in s.jobs && key.attempt >= s.jobs[key.job].maximumAttempts
  }

  // The failure transaction: a guarded UPDATE, then an INSERT that no guard protects.
  function FailRuns(s: Tables, key: RunKey, worker: WorkerId, retryAt: Instant): map<RunKey, RunRow> {
    var dead := Exhausted(s, key);
    var updated := if Matches(s, key, worker) then
        s.runs[key := RunRow(if dead then DeadLetter else Failed, worker, if dead then None else Some(retryAt))]
      else s.runs;
    if dead || Next(key) in updated then updated
    else updated[Next(key) := RunRow(Retry, worker, Some(retryAt))]
  }

  predicate HeldBy(s: Tables, process: nat, key: RunKey) {
    key in s.held && s.held[key].process == process
  }

  predicate WellFormed(job: Job) {
    job.maximumAttempts >= 1 && (job.intervalSeconds.Some? ==> job.intervalSeconds.value >= MINIMUM_INTERVAL)
  }

  function Step(s: Tables, action: Action): Tables {
    match action
    case Tick(to) => s.(clock := if to > s.clock then to else s.clock)
    case AddJob(job, definition) =>
      if job in s.jobs || !WellFormed(definition) then s else s.(jobs := s.jobs[job := definition])
    case EditJob(job, status, nextRunAt) =>
      if job in s.jobs then s.(jobs := s.jobs[job := s.jobs[job].(status := status, nextRunAt := nextRunAt)]) else s
    case ClaimRetry(holder, key) =>
      if RetryDue(s, key) then
        s.(runs := s.runs[key := s.runs[key].(state := Processing, worker := holder.worker)],
            held := s.held[key := holder])
      else s
    case ClaimNew(holder, job) =>
      if JobDue(s, job) then
        var key := RunKey(job, s.jobs[job].nextRunAt.value, 1);
        var advanced := s.(jobs := s.jobs[job := Advanced(s.jobs[job], s.clock)]);
        if key in s.runs then advanced
        else advanced.(runs := s.runs[key := RunRow(Processing, holder.worker, None)], held := s.held[key := holder])
      else s
    case Complete(process, key) =>
      if HeldBy(s, process, key) && Matches(s, key, s.held[key].worker) then
        s.(runs := s.runs[key := s.runs[key].(state := Completed)], held := s.held - {key})
      else s
    case CompleteReplyLost(process, key) =>
      if HeldBy(s, process, key) && Matches(s, key, s.held[key].worker) then
        s.(runs := s.runs[key := s.runs[key].(state := Completed)])
      else s
    case Fail(process, key, retryAt) =>
      if HeldBy(s, process, key) then
        s.(runs := FailRuns(s, key, s.held[key].worker, retryAt), held := s.held - {key})
      else s
    case Crash(process) =>
      s.(held := map key | key in s.held && s.held[key].process != process :: s.held[key])
  }

  function Run(s: Tables, actions: seq<Action>): Tables {
    if actions == [] then s else Step(Run(s, actions[..|actions| - 1]), actions[|actions| - 1])
  }

  lemma RunStep(s: Tables, actions: seq<Action>, action: Action)
    ensures Run(s, actions + [action]) == Step(Run(s, actions), action)
  {
    assert (actions + [action])[..|actions|] == actions;
  }

  lemma {:induction false} RunAppend(s: Tables, before: seq<Action>, after: seq<Action>)
    ensures Run(s, before + after) == Run(Run(s, before), after)
  {
    if after == [] {
      assert before + after == before;
    } else {
      var last := |after| - 1;
      assert before + after == (before + after[..last]) + [after[last]];
      RunAppend(s, before, after[..last]);
      RunStep(s, before + after[..last], after[last]);
    }
  }

  // ------------------------------------------------------------------ the chain of attempts

  /** Locally: a later attempt exists behind every failed one, and otherwise only behind a
      completed one. */
  predicate Linked(s: Tables, key: RunKey)
    requires key in s.runs
  {
    && key.job in s.jobs && 1 <= key.attempt <= s.jobs[key.job].maximumAttempts
    && (key.attempt > 1 ==> var previous := key.(attempt := key.attempt - 1);
          previous in s.runs && s.runs[previous].state in {Failed, Completed})
    && (s.runs[key].state == Failed ==> Next(key) in s.runs)
    && (s.runs[key].state == DeadLetter ==> key.attempt == s.jobs[key.job].maximumAttempts)
  }

  predicate Chained(s: Tables) {
    && (forall job :: job in s.jobs ==> WellFormed(s.jobs[job]))
    && forall key {:trigger Linked(s, key)} :: key in s.runs ==> Linked(s, key)
  }

  // A run that was told to a process and is not settled, or is completed without its knowledge.
  predicate Outstanding(s: Tables, key: RunKey, worker: WorkerId) {
    Matches(s, key, worker) || (key in s.runs && s.runs[key].state == Completed && Next(key) !in s.runs)
  }

  predicate Honoured(s: Tables) {
    forall key :: key in s.held ==> Outstanding(s, key, s.held[key].worker)
  }

  predicate Inv(s: Tables) {
    Chained(s) && Honoured(s)
  }

  lemma NextNeedsAnEnd(s: Tables, key: RunKey)
    requires Chained(s) && key in s.runs
    ensures Next(key) in s.runs ==> s.runs[key].state in {Failed, Completed}
    ensures s.runs[key].state == Failed ==> Next(key) in s.runs
  {
    assert Linked(s, key);
    if Next(key) in s.runs {
      assert Linked(s, Next(key));
      assert Next(key).(attempt := Next(key).attempt - 1) == key;
    }
  }

  lemma FailKeepsChained(s: Tables, s': Tables, key: RunKey, worker: WorkerId, retryAt: Instant)
    requires Chained(s) && Outstanding(s, key, worker)
    requires s'.jobs == s.jobs && s'.runs == FailRuns(s, key, worker, retryAt)
    ensures Chained(s')
  {
    assert Linked(s, key);
    NextNeedsAnEnd(s, key);
    forall k | k in s'.runs
      ensures Linked(s', k)
    {
      if k in s.runs {
        assert Linked(s, k);
      }
    }
  }

  // Steps that leave failed rows alone, add only first attempts and keep the jobs' shape.
  predicate Gentle(s: Tables, s': Tables) {
    && (forall job :: job in s.jobs ==> job in s'.jobs && s'.jobs[job].maximumAttempts == s.jobs[job].maximumAttempts)
    && (forall job :: job in s'.jobs ==> WellFormed(s'.jobs[job]))
    && (forall key :: key in s.runs ==>
          (key in s'.runs && (s'.runs[key].state == Failed <==> s.runs[key].state == Failed) &&
           (s.runs[key].state == Completed ==> s'.runs[key].state == Completed) &&
           (s'.runs[key].state == DeadLetter ==> s.runs[key].state == DeadLetter)))
    && (forall key :: key in s'.runs && key !in s.runs ==>
          key.attempt == 1 && key.job in s.jobs && s'.runs[key].state == Processing)
  }

  lemma GentleKeepsChained(s: Tables, s': Tables)
    requires Chained(s) && Gentle(s, s')
    ensures Chained(s')
  {
    forall key | key in s'.runs
      ensures Linked(s', key)
    {
      if key in s.runs {
        assert Linked(s, key);
      }
    }
  }

  // A step that writes `key`'s row or the one behind it and leaves at most `holder` holding it.
  lemma HonouredAfter(s: Tables, s': Tables, key: RunKey, holder: Holder)
    requires Inv(s)
    requires forall k :: k in s.runs && k != key ==> k in s'.runs && s'.runs[k] == s.runs[k]
    requires forall k :: k in s'.runs && k !in s.runs ==> k == Next(key) || k.attempt == 1
    requires forall k :: k in s'.held && k != key ==> k in s.held && s'.held[k] == s.held[k]
    requires key in s'.held ==> s'.held[key] == holder && Outstanding(s', key, holder.worker)
    ensures Honoured(s')
  {
    forall k | k in s'.held
      ensures Outstanding(s', k, s'.held[k].worker)
    {
      if k != key {
        assert Outstanding(s, k, s.held[k].worker);
        assert Linked(s, k);
      }
    }
  }

  lemma ClaimRetryKeepsInv(s: Tables, holder: Holder, key: RunKey)
    requires Inv(s)
    ensures Inv(Step(s, ClaimRetry(holder, key)))
  {
    if RetryDue(s, key) {
      var s' := Step(s, ClaimRetry(holder, key));
      GentleKeepsChained(s, s');
      HonouredAfter(s, s', key, holder);
    }
  }

  lemma AdvancedIsWellFormed(job: Job, now: Instant)
    requires job.nextRunAt.Some? && WellFormed(job)
    ensures WellFormed(Advanced(job, now)) && Advanced(job, now).maximumAttempts == job.maximumAttempts
  {
  }

  lemma ClaimNewKeepsInv(s: Tables, holder: Holder, job: JobId)
    requires Inv(s)
    ensures Inv(Step(s, ClaimNew(holder, job)))
  {
    hide Advanced, WellFormed, Linked, Outstanding, Matches;
    if JobDue(s, job) {
      var s' := Step(s, ClaimNew(holder, job));
      var key := RunKey(job, s.jobs[job].nextRunAt.value, 1);
      AdvancedIsWellFormed(s.jobs[job], s.clock);
      GentleKeepsChained(s, s');
      if key !in s.runs {
        NewRunIsOutstanding(s', key, holder);
        HonouredAfter(s, s', key, holder);
      } else {
        SameRunsHonoured(s, s');
      }
    }
  }

  lemma NewRunIsOutstanding(s: Tables, key: RunKey, holder: Holder)
    requires key in s.runs && s.runs[key] == RunRow(Processing, holder.worker, None)
    ensures Outstanding(s, key, holder.worker)
  {
  }

  lemma SameRunsHonoured(s: Tables, s': Tables)
    requires Honoured(s) && s'.runs == s.runs && forall k :: k in s'.held ==> k in s.held && s'.held[k] == s.held[k]
    ensures Honoured(s')
  {
    forall k | k in s'.held
      ensures Outstanding(s', k, s'.held[k].worker)
    {
      assert Outstanding(s, k, s.held[k].worker);
    }
  }

  lemma CompleteKeepsInv(s: Tables, process: nat, key: RunKey, heard: bool)
    requires Inv(s)
    ensures Inv(Step(s, if heard then Complete(process, key) else CompleteReplyLost(process, key)))
  {
    if HeldBy(s, process, key) && Matches(s, key, s.held[key].worker) {
      var s' := Step(s, if heard then Complete(process, key) else CompleteReplyLost(process, key));
      NextNeedsAnEnd(s, key);
      GentleKeepsChained(s, s');
      HonouredAfter(s, s', key, s.held[key]);
    }
  }

  lemma FailKeepsInv(s: Tables, process: nat, key: RunKey, retryAt: Instant)
    requires Inv(s)
    ensures Inv(Step(s, Fail(process, key, retryAt)))
  {
    if HeldBy(s, process, key) {
      assert Outstanding(s, key, s.held[key].worker);
      FailKeepsChained(s, Step(s, Fail(process, key, retryAt)), key, s.held[key].worker, retryAt);
      HonouredAfter(s, Step(s, Fail(process, key, retryAt)), key, s.held[key]);
    }
  }

  lemma OthersKeepInv(s: Tables, action: Action)
    requires Inv(s) && (action.Tick? || action.AddJob? || action.EditJob? || action.Crash?)
    ensures Inv(Step(s, action))
  {
    hide Linked, Outstanding;
    SameRunsChained(s, Step(s, action));
    SameRunsHonoured(s, Step(s, action));
  }

  lemma SameRunsChained(s: Tables, s': Tables)
    requires Chained(s) && s'.runs == s.runs && forall job :: job in s'.jobs ==> WellFormed(s'.jobs[job])
    requires forall job :: job in s.jobs ==>
             job in s'.jobs && s'.jobs[job].maximumAttempts == s.jobs[job].maximumAttempts
    ensures Chained(s')
  {
    hide WellFormed;
    forall key | key in s'.runs
      ensures Linked(s', key)
    {
      assert Linked(s, key);
    }
  }

  lemma StepKeepsInv(s: Tables, action: Action)
    requires Inv(s)
    ensures Inv(Step(s, action))
  {
    hide *;
    match action {
      case ClaimRetry(holder, key) => ClaimRetryKeepsInv(s, holder, key);
      case ClaimNew(holder, job) => ClaimNewKeepsInv(s, holder, job);
      case Complete(process, key) => CompleteKeepsInv(s, process, key, true);
      case CompleteReplyLost(process, key) => CompleteKeepsInv(s, process, key, false);
      case Fail(process, key, retryAt) => FailKeepsInv(s, process, key, retryAt);
      case Tick(_) | AddJob(_, _) | EditJob(_, _, _) | Crash(_) => OthersKeepInv(s, action);
    }
  }

  lemma {:induction false} RunKeepsInv(s: Tables, actions: seq<Action>)
    requires Inv(s)
    ensures Inv(Run(s, actions))
  {
    if actions != [] {
      RunKeepsInv(s, actions[..|actions| - 1]);
      StepKeepsInv(Run(s, actions[..|actions| - 1]), actions[|actions| - 1]);
    }
  }

  function Empty(clock: Instant): Tables {
    Tables(map[], map[], map[], clock)
  }

  // The attempts of an occurrence are exactly 1..n, all but the last are over and the last did not fail.
  ghost predicate ChainOf(s: Tables, job: JobId, scheduledFor: Instant, n: nat) {
    && (forall k: nat :: RunKey(job, scheduledFor, k) in s.runs <==> 1 <= k <= n)
    && (forall k: nat :: 1 <= k < n ==> s.runs[RunKey(job, scheduledFor, k)].state in {Failed, Completed})
    && (n > 0 ==> s.runs[RunKey(job, scheduledFor, n)].state != Failed)
  }

  function Length(s: Tables, job: JobId, scheduledFor: Instant, bound: nat): nat {
    if bound == 0 || RunKey(job, scheduledFor, bound) in s.runs then bound
    else Length(s, job, scheduledFor, bound - 1)
  }

  lemma {:induction false} DownwardClosed(s: Tables, key: RunKey, k: nat)
    requires Chained(s) && key in s.runs && 1 <= k <= key.attempt
    ensures key.(attempt := k) in s.runs
    ensures k < key.attempt ==> s.runs[key.(attempt := k)].state in {Failed, Completed}
    decreases key.attempt - k
  {
    if k < key.attempt {
      DownwardClosed(s, key, k + 1);
      assert Linked(s, key.(attempt := k + 1));
    }
  }

  lemma {:induction false} LengthIsLast(s: Tables, job: JobId, scheduledFor: Instant, bound: nat)
    ensures var n := Length(s, job, scheduledFor, bound);
            && n <= bound && (n > 0 ==> RunKey(job, scheduledFor, n) in s.runs)
            && forall k: nat :: n < k <= bound ==> RunKey(job, scheduledFor, k) !in s.runs
  {
    if bound > 0 && RunKey(job, scheduledFor, bound) !in s.runs {
      LengthIsLast(s, job, scheduledFor, bound - 1);
    }
  }

  lemma ChainExists(s: Tables, job: JobId, scheduledFor: Instant) returns (n: nat)
    requires Chained(s)
    ensures ChainOf(s, job, scheduledFor, n)
    ensures n > 0 ==> job in s.jobs && n <= s.jobs[job].maximumAttempts
  {
    var bound := if job in s.jobs then s.jobs[job].maximumAttempts else 0;
    n := Length(s, job, scheduledFor, bound);
    LengthIsLast(s, job, scheduledFor, bound);
    forall k: nat
      ensures RunKey(job, scheduledFor, k) in s.runs <==> 1 <= k <= n
      ensures 1 <= k < n ==> s.runs[RunKey(job, scheduledFor, k)].state in {Failed, Completed}
    {
      if RunKey(job, scheduledFor, k) in s.runs {
        assert Linked(s, RunKey(job, scheduledFor, k));
      }
      if 1 <= k <= n {
        DownwardClosed(s, RunKey(job, scheduledFor, n), k);
      }
    }
    if n > 0 {
      var last := RunKey(job, scheduledFor, n);
      assert Linked(s, last);
      NextNeedsAnEnd(s, last);
      assert Next(last) == RunKey(job, scheduledFor, n + 1);
    }
  }

  /** On every run, whatever crashes and whichever completion replies are lost, the runs of an
      occurrence form one chain: attempts 1..n with n at most the maximum, every one but the last
      failed or completed, and the last not failed. */
  lemma AttemptsFormAChain(clock: Instant, actions: seq<Action>, job: JobId, scheduledFor: Instant) returns (n: nat)
    ensures var s := Run(Empty(clock), actions);
            ChainOf(s, job, scheduledFor, n) && (n > 0 ==> job in s.jobs && n <= s.jobs[job].maximumAttempts)
  {
    RunKeepsInv(Empty(clock), actions);
    n := ChainExists(Run(Empty(clock), actions), job, scheduledFor);
  }

  predicate Settled(s: Tables, key: RunKey) {
    key in s.runs && s.runs[key].state in {Completed, Failed, DeadLetter}
  }

  /** A settled run is never touched again. */
  lemma SettledStep(s: Tables, action: Action, key: RunKey)
    requires Inv(s) && Settled(s, key)
    ensures key in Step(s, action).runs && Step(s, action).runs[key] == s.runs[key]
  {
    match action {
      case ClaimNew(_, _) =>
      case Fail(_, _, _) =>
      case Complete(_, _) =>
      case _ =>
    }
  }

  lemma {:induction false} SettledRunsStay(s: Tables, actions: seq<Action>, key: RunKey)
    requires Inv(s) && Settled(s, key)
    ensures key in Run(s, actions).runs && Run(s, actions).runs[key] == s.runs[key]
  {
    if actions != [] {
      var shorter := actions[..|actions| - 1];
      SettledRunsStay(s, shorter, key);
      RunKeepsInv(s, shorter);
      SettledStep(Run(s, shorter), actions[|actions| - 1], key);
    }
  }

  // ------------------------------------------------------------------ lost replies

  /** The unguarded INSERT keeps the chain exactly when the UPDATE before it matched, when no
      retry is due, when the next attempt is already there, or when the run had completed. */
  lemma InsertIsSafeExactlyWhen(s: Tables, key: RunKey, worker: WorkerId, retryAt: Instant)
    requires Chained(s) && key in s.runs
    ensures Chained(s.(runs := FailRuns(s, key, worker, retryAt))) <==>
            || Matches(s, key, worker) || Exhausted(s, key) || Next(key) in s.runs
            || s.runs[key].state == Completed
  {
    var s' := s.(runs := FailRuns(s, key, worker, retryAt));
    assert Linked(s, key);
    NextNeedsAnEnd(s, key);
    if Outstanding(s, key, worker) {
      FailKeepsChained(s, s', key, worker, retryAt);
    } else if !Exhausted(s, key) && Next(key) !in s.runs {
      assert Next(key).(attempt := Next(key).attempt - 1) == key;
      assert !Linked(s', Next(key));
    } else {
      assert s' == s;
    }
  }

  predicate IsOf(key: RunKey, job: JobId, scheduledFor: Instant) {
    key.job == job && key.scheduledFor == scheduledFor
  }

  // Finished work was scheduled again.
  predicate Repeated(s: Tables, key: RunKey) {
    key in s.runs && s.runs[key].state == Completed && Next(key) in s.runs
  }

  // Every attempt of the occurrence that has another behind it failed.
  ghost predicate OnlyFailuresRepeat(s: Tables, job: JobId, scheduledFor: Instant) {
    forall key: RunKey :: IsOf(key, job, scheduledFor) ==> !Repeated(s, key)
  }

  // The catch block runs for a completed run of the occurrence with attempts left.
  predicate Relapses(s: Tables, action: Action, job: JobId, scheduledFor: Instant) {
    && action.Fail? && IsOf(action.key, job, scheduledFor) && HeldBy(s, action.process, action.key)
    && action.key in s.runs && s.runs[action.key].state == Completed && !Exhausted(s, action.key)
  }

  predicate EverRelapses(clock: Instant, actions: seq<Action>, job: JobId, scheduledFor: Instant) {
    actions != [] &&
    var shorter := actions[..|actions| - 1];
    EverRelapses(clock, shorter, job, scheduledFor) ||
        Relapses(Run(Empty(clock), shorter), actions[|actions| - 1], job, scheduledFor)
  }

  // Which runs one step makes repeated.
  lemma RepeatedStep(s: Tables, action: Action, key: RunKey)
    requires Inv(s)
    ensures Repeated(Step(s, action), key) <==>
            Repeated(s, key) || (Relapses(s, action, key.job, key.scheduledFor) && action.key == key)
  {
    hide *;
    match action {
      case Fail(process, failed, retryAt) => RepeatedByFailure(s, process, failed, retryAt, key);
      case Complete(process, done) => RepeatedByCompletion(s, process, done, true, key);
      case CompleteReplyLost(process, done) => RepeatedByCompletion(s, process, done, false, key);
      case _ => RepeatedByOthers(s, action, key);
    }
  }

  lemma RepeatedByFailure(s: Tables, process: nat, failed: RunKey, retryAt: Instant, key: RunKey)
    requires Inv(s)
    ensures var action := Fail(process, failed, retryAt);
            Repeated(Step(s, action), key) <==>
            Repeated(s, key) || (Relapses(s, action, key.job, key.scheduledFor) && action.key == key)
  {
    if HeldBy(s, process, failed) {
      assert Outstanding(s, failed, s.held[failed].worker);
      assert Next(key) == Next(failed) <==> key == failed;
      NextNeedsAnEnd(s, failed);
    }
    hide Inv;
  }

  lemma RepeatedByCompletion(s: Tables, process: nat, done: RunKey, heard: bool, key: RunKey)
    requires Inv(s)
    ensures var action := if heard then Complete(process, done) else CompleteReplyLost(process, done);
            && (Repeated(Step(s, action), key) <==> Repeated(s, key))
            && !Relapses(s, action, key.job, key.scheduledFor)
  {
    if key in s.runs {
      NextNeedsAnEnd(s, key);
    }
    hide Inv;
  }

  lemma RepeatedByOthers(s: Tables, action: Action, key: RunKey)
    requires Inv(s) && !action.Fail? && !action.Complete? && !action.CompleteReplyLost?
    ensures Repeated(Step(s, action), key) <==> Repeated(s, key)
    ensures !Relapses(s, action, key.job, key.scheduledFor)
  {
    assert key in s.runs ==> Linked(s, key);
    hide Inv, Linked, Advanced;
  }

  /** Every repeated attempt of an occurrence had failed, unless and only unless the catch block
      ran for one of its completed runs, whose reply was lost, with attempts left. */
  lemma {:induction false} FinishedWorkRepeatsExactlyWhen(clock: Instant, actions: seq<Action>, job: JobId,
                                                          scheduledFor: Instant)
    ensures OnlyFailuresRepeat(Run(Empty(clock), actions), job, scheduledFor) <==>
            !EverRelapses(clock, actions, job, scheduledFor)
  {
    if actions != [] {
      var shorter, last := actions[..|actions| - 1], actions[|actions| - 1];
      FinishedWorkRepeatsExactlyWhen(clock, shorter, job, scheduledFor);
      RunKeepsInv(Empty(clock), shorter);
      OneMoreStep(Run(Empty(clock), shorter), last, job, scheduledFor);
    }
  }

  lemma OneMoreStep(s: Tables, action: Action, job: JobId, scheduledFor: Instant)
    requires Inv(s)
    ensures OnlyFailuresRepeat(Step(s, action), job, scheduledFor) <==>
            OnlyFailuresRepeat(s, job, scheduledFor) && !Relapses(s, action, job, scheduledFor)
  {
    hide Step, Inv, Repeated;
    forall key: RunKey {
      RepeatedStep(s, action, key);
    }
    if Relapses(s, action, job, scheduledFor) {
      assert Repeated(Step(s, action), action.key);
    }
  }

  // Completed, dead or still open.
  predicate Live(s: Tables, key: RunKey) {
    key in s.runs && s.runs[key].state != Failed
  }

  ghost predicate OneLive(s: Tables, job: JobId, scheduledFor: Instant) {
    forall key: RunKey, other: RunKey ::
      IsOf(key, job, scheduledFor) && IsOf(other, job, scheduledFor) && Live(s, key) && Live(s, other) ==> key == other
  }

  /** So at most one attempt of an occurrence is completed, dead or still open, on exactly the
      same condition. */
  lemma OneLiveAttempt(clock: Instant, actions: seq<Action>, job: JobId, scheduledFor: Instant)
    ensures OneLive(Run(Empty(clock), actions), job, scheduledFor) <==>
            !EverRelapses(clock, actions, job, scheduledFor)
  {
    var s := Run(Empty(clock), actions);
    var n := AttemptsFormAChain(clock, actions, job, scheduledFor);
    FinishedWorkRepeatsExactlyWhen(clock, actions, job, scheduledFor);
    hide Run, EverRelapses;
    LastIsTheOnlyLive(s, job, scheduledFor, n);
  }

  lemma LastIsTheOnlyLive(s: Tables, job: JobId, scheduledFor: Instant, n: nat)
    requires ChainOf(s, job, scheduledFor, n)
    ensures OneLive(s, job, scheduledFor) <==> OnlyFailuresRepeat(s, job, scheduledFor)
  {
    if OnlyFailuresRepeat(s, job, scheduledFor) {
      forall key: RunKey | IsOf(key, job, scheduledFor) && Live(s, key)
        ensures key.attempt == n
      {
        assert key == RunKey(job, scheduledFor, key.attempt);
        assert !Repeated(s, key);
        assert Next(key) == RunKey(job, scheduledFor, key.attempt + 1);
      }
    } else {
      var key: RunKey :| IsOf(key, job, scheduledFor) && Repeated(s, key);
      assert key == RunKey(job, scheduledFor, key.attempt);
      assert Next(key) == RunKey(job, scheduledFor, key.attempt + 1);
      assert Live(s, key) && Live(s, RunKey(job, scheduledFor, n));
    }
  }

  /** It happens: when the reply to a completion is lost before the last attempt, the finished
      occurrence is scheduled once more. */
  lemma LostReplyReschedulesFinishedWork(clock: Instant, actions: seq<Action>, process: nat, key: RunKey,
                                         retryAt: Instant)
    requires var s := Run(Empty(clock), actions); HeldBy(s, process, key) && Matches(s, key, s.held[key].worker)
    ensures var s := Run(Empty(clock), actions);
            var s' := Run(Empty(clock), actions + [CompleteReplyLost(process, key), Fail(process, key, retryAt)]);
            && key in s'.runs && s'.runs[key].state == Completed
            && (Next(key) in s'.runs <==> !Exhausted(s, key))
            && (!Exhausted(s, key) ==> s'.runs[Next(key)].state == Retry)
  {
    var s := Run(Empty(clock), actions);
    var lost, fail := CompleteReplyLost(process, key), Fail(process, key, retryAt);
    RunKeepsInv(Empty(clock), actions);
    RunStep(Empty(clock), actions, lost);
    RunStep(Empty(clock), actions + [lost], fail);
    assert actions + [lost, fail] == actions + [lost] + [fail];
    hide Run;
    CompletedThenFailed(s, process, key, retryAt);
  }

  lemma CompletedThenFailed(s: Tables, process: nat, key: RunKey, retryAt: Instant)
    requires Inv(s) && HeldBy(s, process, key) && Matches(s, key, s.held[key].worker)
    ensures var s' := Step(Step(s, CompleteReplyLost(process, key)), Fail(process, key, retryAt));
            && key in s'.runs && s'.runs[key].state == Completed
            && (Next(key) in s'.runs <==> !Exhausted(s, key))
            && (!Exhausted(s, key) ==> s'.runs[Next(key)].state == Retry)
  {
    NextNeedsAnEnd(s, key);
  }

  // ------------------------------------------------------------------ occurrences advance

  predicate Before(scheduledFor: Instant, job: Job) {
    job.nextRunAt.Some? ==> scheduledFor < job.nextRunAt.value
  }

  predicate Ahead(s: Tables) {
    forall key :: key in s.runs ==> key.job in s.jobs && Before(key.scheduledFor, s.jobs[key.job])
  }

  // An operator sets a job's clock to an occurrence that was started, or before one.
  predicate Reopens(s: Tables, action: Action) {
    && action.EditJob? && action.job in s.jobs && action.nextRunAt.Some?
    && exists key :: key in s.runs && key.job == action.job && key.scheduledFor >= action.nextRunAt.value
  }

  lemma AheadStep(s: Tables, action: Action)
    requires Inv(s) && Ahead(s)
    ensures Ahead(Step(s, action)) <==> !Reopens(s, action)
  {
    hide *;
    match action {
      case ClaimNew(holder, job) => AheadByClaim(s, holder, job);
      case EditJob(_, _, _) => AheadByEdit(s, action);
      case _ => AheadByOthers(s, action);
    }
  }

  lemma AheadByClaim(s: Tables, holder: Holder, job: JobId)
    requires Inv(s) && Ahead(s)
    ensures Ahead(Step(s, ClaimNew(holder, job))) && !Reopens(s, ClaimNew(holder, job))
  {
    if JobDue(s, job) {
      assert WellFormed(s.jobs[job]);
    }
    hide Inv;
  }

  lemma AheadByEdit(s: Tables, action: Action)
    requires Ahead(s) && action.EditJob?
    ensures Ahead(Step(s, action)) <==> !Reopens(s, action)
  {
    if Reopens(s, action) {
      var key :| key in s.runs && key.job == action.job && key.scheduledFor >= action.nextRunAt.value;
      assert !Before(key.scheduledFor, Step(s, action).jobs[action.job]);
    }
  }

  lemma AheadByOthers(s: Tables, action: Action)
    requires Inv(s) && Ahead(s) && !action.ClaimNew? && !action.EditJob?
    ensures Ahead(Step(s, action)) && !Reopens(s, action)
  {
    if action.Fail? && HeldBy(s, action.process, action.key) {
      assert Outstanding(s, action.key, s.held[action.key].worker);
    }
    hide Inv;
  }

  // No operator of the run ever reopens an occurrence; pausing, resuming and postponing are fine.
  predicate NeverReopens(clock: Instant, actions: seq<Action>) {
    actions == [] ||
    var shorter := actions[..|actions| - 1];
    NeverReopens(clock, shorter) && !Reopens(Run(Empty(clock), shorter), actions[|actions| - 1])
  }

  lemma {:induction false} AheadAlways(clock: Instant, actions: seq<Action>)
    requires NeverReopens(clock, actions)
    ensures Inv(Run(Empty(clock), actions)) && Ahead(Run(Empty(clock), actions))
  {
    if actions != [] {
      var shorter := actions[..|actions| - 1];
      AheadAlways(clock, shorter);
      StepKeepsInv(Run(Empty(clock), shorter), actions[|actions| - 1]);
      AheadStep(Run(Empty(clock), shorter), actions[|actions| - 1]);
    }
  }

  /** Unless an operator sets a job's clock back to an occurrence that was started, an occurrence
      is started at most once: a due job never meets the ON CONFLICT of its own insert, and its
      next occurrence is strictly later. */
  lemma OccurrencesAreFresh(clock: Instant, actions: seq<Action>, holder: Holder, job: JobId)
    requires NeverReopens(clock, actions)
    requires JobDue(Run(Empty(clock), actions), job)
    ensures var s := Run(Empty(clock), actions);
            var s' := Step(s, ClaimNew(holder, job));
            var key := RunKey(job, s.jobs[job].nextRunAt.value, 1);
            && key !in s.runs && Matches(s', key, holder.worker)
            && (s'.jobs[job].nextRunAt.None? ==> s'.jobs[job].status == Paused)
            && (s'.jobs[job].nextRunAt.Some? ==> s'.jobs[job].nextRunAt.value > key.scheduledFor)
  {
    AheadAlways(clock, actions);
    assert WellFormed(Run(Empty(clock), actions).jobs[job]);
  }

  // ------------------------------------------------------------------ when a job is due again

  /** A claim of a due recurring job moves it one interval from now, however long ago it was due,
      and leaves its status; a one-off job is paused for ever. */
  lemma ClaimsPutJobsOff(s: Tables, holder: Holder, job: JobId)
    requires JobDue(s, job)
    ensures var before, after := s.jobs[job], Step(s, ClaimNew(holder, job)).jobs[job];
            && after.handlerKey == before.handlerKey && after.maximumAttempts == before.maximumAttempts
            && after.intervalSeconds == before.intervalSeconds
            && (match before.intervalSeconds
                case Some(n) => after.status == Active && after.nextRunAt == Some(s.clock + n * SECOND)
                case None => after.status == Paused && after.nextRunAt == None)
    ensures forall other :: other in s.jobs && other != job ==>
            Step(s, ClaimNew(holder, job)).jobs[other] == s.jobs[other]
  {
  }

  predicate Leaves(action: Action, job: JobId) {
    action.EditJob? ==> action.job != job
  }

  predicate AllLeave(actions: seq<Action>, job: JobId) {
    forall i :: 0 <= i < |actions| ==> Leaves(actions[i], job)
  }

  // Not due before the given time; never, when there is none.
  predicate Resting(s: Tables, job: JobId, until: Option<Instant>) {
    job in s.jobs && match until
      case None => s.jobs[job].status == Paused
      case Some(time) => s.jobs[job].nextRunAt.Some? ==> s.jobs[job].nextRunAt.value >= time
  }

  lemma RestingStep(s: Tables, action: Action, job: JobId, until: Option<Instant>)
    requires Resting(s, job, until) && Leaves(action, job)
    requires forall j :: j in s.jobs ==> WellFormed(s.jobs[j])
    ensures Resting(Step(s, action), job, until)
  {
    hide FailRuns;
    if action.ClaimNew? && JobDue(s, action.job) {
      assert WellFormed(s.jobs[action.job]);
      ClaimsPutJobsOff(s, action.holder, action.job);
    }
  }

  lemma {:induction false} RestingRun(s: Tables, actions: seq<Action>, job: JobId, until: Option<Instant>)
    requires Inv(s) && Resting(s, job, until) && AllLeave(actions, job)
    ensures Resting(Run(s, actions), job, until)
  {
    hide Step, Resting, Leaves;
    if actions != [] {
      var shorter := actions[..|actions| - 1];
      RestingRun(s, shorter, job, until);
      RunKeepsInv(s, shorter);
      RestingStep(Run(s, shorter), actions[|actions| - 1], job, until);
    }
  }

  /** After a claim at clock t a recurring job is not due before t plus its interval, and a one-off
      job is never due again, on any continuation without an operator's edit of that job: so two
      starts of a job are at least its interval apart. */
  lemma StartsAreApart(clock: Instant, before: seq<Action>, holder: Holder, job: JobId, after: seq<Action>)
    requires JobDue(Run(Empty(clock), before), job) && AllLeave(after, job)
    ensures var s := Run(Empty(clock), before);
            var later := Run(Empty(clock), before + [ClaimNew(holder, job)] + after);
            JobDue(later, job) ==>
              s.jobs[job].intervalSeconds.Some? &&
              later.clock >= s.clock + s.jobs[job].intervalSeconds.value * SECOND
  {
    var s := Run(Empty(clock), before);
    var claim := ClaimNew(holder, job);
    RunKeepsInv(Empty(clock), before);
    RunStep(Empty(clock), before, claim);
    RunAppend(Empty(clock), before + [claim], after);
    ClaimsPutJobsOff(s, holder, job);
    StepKeepsInv(s, claim);
    hide Run, Step, Inv;
    var interval := s.jobs[job].intervalSeconds;
    RestingRun(Step(s, claim), after, job, if interval.Some? then Some(s.clock + interval.value * SECOND) else None);
  }
}
