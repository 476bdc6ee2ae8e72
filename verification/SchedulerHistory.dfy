/**
  What the run rows say about the past, which completions count, that retries wait for their time,
  and that a claim leaves nothing due behind.
*/
module SchedulerHistory {
  import opened Wrappers
  import opened Scheduler
  import opened SchedulerRuntime

  // The tables before the i-th step of the run.
  function Then(clock: Instant, actions: seq<Action>, i: nat): Tables
    requires i <= |actions|
  {
    Run(Empty(clock), actions[..i])
  }

  // The i-th step took this run for this worker: as the first of a due occurrence, or as a retry
  // whose time had come.
  predicate TakenAt(clock: Instant, actions: seq<Action>, i: nat, key: RunKey, worker: WorkerId)
    requires i < |actions|
  {
    var s, a := Then(clock, actions, i), actions[i];
    || (a.ClaimNew? && a.job == key.job && a.holder.worker == worker && key.attempt == 1 && key.job in s.jobs &&
        s.jobs[key.job].status == Active && s.jobs[key.job].nextRunAt == Some(key.scheduledFor) &&
        key.scheduledFor <= s.clock)
    || (a.ClaimRetry? && a.key == key && a.holder.worker == worker && key in s.runs &&
        s.runs[key].nextAttemptAt.Some? && s.runs[key].nextAttemptAt.value <= s.clock &&
        key.job in s.jobs && s.jobs[key.job].status != Retired)
  }

  // The i-th step was a failure reported by the process that held the run.
  predicate FailedAt(clock: Instant, actions: seq<Action>, i: nat, key: RunKey, worker: WorkerId,
                     retryAt: Option<Instant>)
    requires i < |actions|
  {
    var s, a := Then(clock, actions, i), actions[i];
    && a.Fail? && a.key == key && HeldBy(s, a.process, key) && s.held[key].worker == worker
    && (retryAt.Some? ==> retryAt.value == a.retryAt)
  }

  predicate CompletedAt(clock: Instant, actions: seq<Action>, i: nat, key: RunKey, worker: WorkerId)
    requires i < |actions|
  {
    var s, a := Then(clock, actions, i), actions[i];
    && (a.Complete? || a.CompleteReplyLost?) && a.key == key
    && HeldBy(s, a.process, key) && s.held[key].worker == worker
  }

  // A failed run has the time of its retry and a dead one none; a waiting retry has the time that
  // the failure before it has set.
  predicate RowIsTold(clock: Instant, actions: seq<Action>, key: RunKey, row: RunRow) {
    match row.state
    case Processing => exists i :: 0 <= i < |actions| && TakenAt(clock, actions, i, key, row.worker)
    case Completed => exists i :: 0 <= i < |actions| && CompletedAt(clock, actions, i, key, row.worker)
    case Retry =>
      row.nextAttemptAt.Some? && key.attempt > 1 &&
      var failed := key.(attempt := key.attempt - 1);
      exists i :: 0 <= i < |actions| && FailedAt(clock, actions, i, failed, row.worker, row.nextAttemptAt)
    case Failed =>
      row.nextAttemptAt.Some? &&
      exists i :: 0 <= i < |actions| && FailedAt(clock, actions, i, key, row.worker, row.nextAttemptAt)
    case DeadLetter =>
      row.nextAttemptAt.None? &&
      exists i :: 0 <= i < |actions| && FailedAt(clock, actions, i, key, row.worker, None)
  }

  lemma ThenStays(clock: Instant, actions: seq<Action>, a: Action, i: nat)
    requires i <= |actions|
    ensures Then(clock, actions + [a], i) == Then(clock, actions, i)
    ensures i < |actions| ==> (actions + [a])[i] == actions[i]
  {
    assert (actions + [a])[..i] == actions[..i];
  }

  lemma ThenNow(clock: Instant, actions: seq<Action>, a: Action)
    ensures Then(clock, actions + [a], |actions|) == Run(Empty(clock), actions)
    ensures (actions + [a])[|actions|] == a
  {
    assert (actions + [a])[..|actions|] == actions;
  }

  lemma RowStays(clock: Instant, actions: seq<Action>, a: Action, key: RunKey, row: RunRow)
    requires RowIsTold(clock, actions, key, row)
    ensures RowIsTold(clock, actions + [a], key, row)
  {
    hide Then;
    var more := actions + [a];
    var previous := if key.attempt > 1 then key.(attempt := key.attempt - 1) else key;
    forall i | 0 <= i < |actions|
      ensures TakenAt(clock, actions, i, key, row.worker) ==> TakenAt(clock, more, i, key, row.worker)
      ensures CompletedAt(clock, actions, i, key, row.worker) ==> CompletedAt(clock, more, i, key, row.worker)
      ensures FailedAt(clock, actions, i, previous, row.worker, row.nextAttemptAt) ==>
              FailedAt(clock, more, i, previous, row.worker, row.nextAttemptAt)
      ensures FailedAt(clock, actions, i, key, row.worker, row.nextAttemptAt) ==>
              FailedAt(clock, more, i, key, row.worker, row.nextAttemptAt)
    {
      ThenStays(clock, actions, a, i);
    }
  }

  lemma FailureWrites(s: Tables, a: Action, key: RunKey)
    requires Inv(s) && a.Fail? && key in Step(s, a).runs && (key in s.runs ==> Step(s, a).runs[key] != s.runs[key])
    ensures HeldBy(s, a.process, a.key)
    ensures var row := Step(s, a).runs[key];
            && row.worker == s.held[a.key].worker
            && (if key == a.key then
                  (row.state == Failed && row.nextAttemptAt == Some(a.retryAt)) ||
                  (row.state == DeadLetter && row.nextAttemptAt == None)
                else
                  key.attempt > 1 && key.(attempt := key.attempt - 1) == a.key &&
                  row.state == Retry && row.nextAttemptAt == Some(a.retryAt))
  {
    if key != a.key {
      assert Outstanding(s, a.key, s.held[a.key].worker) && Linked(s, a.key);
    }
  }

  lemma RowNext(clock: Instant, actions: seq<Action>, a: Action, key: RunKey)
    requires var s := Run(Empty(clock), actions);
             && key in Step(s, a).runs && Inv(s)
             && (key in s.runs ==> RowIsTold(clock, actions, key, s.runs[key]))
    ensures RowIsTold(clock, actions + [a], key, Step(Run(Empty(clock), actions), a).runs[key])
  {
    hide Then, Run, Empty, Inv;
    var s, i, more := Run(Empty(clock), actions), |actions|, actions + [a];
    var row := Step(s, a).runs[key];
    ThenNow(clock, actions, a);
    assert Then(clock, more, i) == s && more[i] == a && i < |more|;
    if key in s.runs && row == s.runs[key] {
      RowStays(clock, actions, a, key, row);
    } else if a.Fail? {
      FailureWrites(s, a, key);
      hide Step, Inv;
      assert FailedAt(clock, more, i, a.key, row.worker, row.nextAttemptAt);
    } else if a.ClaimNew? || a.ClaimRetry? {
      assert TakenAt(clock, more, i, key, row.worker);
    } else {
      assert CompletedAt(clock, more, i, key, row.worker);
    }
  }

  /** On every run, a row under way was taken by its worker when it was due, and any other row says
      what the process that held the run, or the attempt before it, reported. */
  lemma {:induction false} RowsTellThePast(clock: Instant, actions: seq<Action>)
    ensures var s := Run(Empty(clock), actions);
            forall key :: key in s.runs ==> RowIsTold(clock, actions, key, s.runs[key])
  {
    if actions != [] {
      var before, a := actions[..|actions| - 1], actions[|actions| - 1];
      RowsTellThePast(clock, before);
      RunKeepsInv(Empty(clock), before);
      hide RowIsTold, Step, Empty, Inv;
      assert actions == before + [a];
      RunStep(Empty(clock), before, a);
      forall key | key in Step(Run(Empty(clock), before), a).runs
        ensures RowIsTold(clock, actions, key, Step(Run(Empty(clock), before), a).runs[key])
      {
        RowNext(clock, before, a, key);
      }
    }
  }

  // ------------------------------------------------------------------ settlements

  /** A report of a process counts if and only if it was told of the run and has not settled it: a
      completion unless an unheard one did, a failure always.  The comparison of worker names never
      decides anything. */
  lemma ReportCountsExactlyWhen(clock: Instant, actions: seq<Action>, process: nat, key: RunKey, retryAt: Instant)
    ensures var s := Run(Empty(clock), actions);
            var holds := key in s.held && s.held[key].process == process;
            && (holds ==> key in s.runs && s.runs[key].state in {Processing, Completed})
            && (Step(s, Complete(process, key)) != s <==> holds && s.runs[key].state == Processing)
            && (Step(s, Fail(process, key, retryAt)) != s <==> holds)
            && (holds && s.runs[key].state == Processing ==> s.runs[key].worker == s.held[key].worker)
  {
    RunKeepsInv(Empty(clock), actions);
    var s := Run(Empty(clock), actions);
    if HeldBy(s, process, key) {
      assert Outstanding(s, key, s.held[key].worker);
      assert key !in Step(s, Fail(process, key, retryAt)).held;
    }
  }

  /** A retry waits for its time: until then the row stays as the failure has left it. */
  lemma {:induction false} RetriesWait(s: Tables, actions: seq<Action>, key: RunKey)
    requires key in s.runs && s.runs[key].state == Retry && s.runs[key].nextAttemptAt.Some?
    ensures var s' := Run(s, actions);
            (key in s'.runs && s'.runs[key] == s.runs[key]) || s'.clock >= s.runs[key].nextAttemptAt.value
  {
    if actions != [] {
      RetriesWait(s, actions[..|actions| - 1], key);
      RetryWaits(Run(s, actions[..|actions| - 1]), actions[|actions| - 1], key);
    }
  }

  lemma RetryWaits(s: Tables, action: Action, key: RunKey)
    ensures Step(s, action).clock >= s.clock
    ensures key in s.runs && s.runs[key].state == Retry && s.runs[key].nextAttemptAt.Some? &&
            s.clock < s.runs[key].nextAttemptAt.value ==>
            key in Step(s, action).runs && Step(s, action).runs[key] == s.runs[key]
  {
  }

  // ------------------------------------------------------------------ a claim misses nothing

  // A retry whose time has come, of a job that is not retired.
  predicate Ripe(s: Tables, key: RunKey) {
    && key in s.runs && s.runs[key].state == Retry && key.job in s.jobs && s.jobs[key.job].status != Retired
    && s.runs[key].nextAttemptAt.Some? && s.clock >= s.runs[key].nextAttemptAt.value
  }

  lemma {:induction false} OtherRunsAreUntouched(s: Tables, claims: seq<Action>, holder: Holder, visible: seq<RunKey>,
                                                 key: RunKey)
    requires VisitsRuns(claims, holder, visible) && key !in visible[..|claims|]
    ensures var s' := Run(s, claims);
            && s'.jobs == s.jobs && s'.clock == s.clock && (key in s'.runs <==> key in s.runs)
            && (key in s.runs ==> s'.runs[key] == s.runs[key])
  {
    if claims != [] {
      var n := |claims| - 1;
      assert visible[..n + 1][n] == visible[n] && visible[..n] <= visible[..n + 1];
      OtherRunsAreUntouched(s, claims[..n], holder, visible, key);
    }
  }

  /** The retries won are exactly those of the visited rows that were ripe when the claim began. */
  lemma {:induction false} RetryClaimsMissNothing(s: Tables, claims: seq<Action>, holder: Holder, visible: seq<RunKey>,
                                                  key: RunKey)
    requires VisitsRuns(claims, holder, visible)
    requires forall i, j :: 0 <= i < j < |visible| ==> visible[i] != visible[j]
    ensures key in Retried(s, claims) <==> Ripe(s, key) && exists i :: 0 <= i < |claims| && visible[i] == key
  {
    hide Retried, Run, Ripe, RetryDue;
    if claims == [] {
      NothingRetried(s);
    } else {
      var n := |claims| - 1;
      var earlier, last := claims[..n], visible[n];
      RetryClaimsMissNothing(s, earlier, holder, visible, key);
      assert last !in visible[..n];
      OtherRunsAreUntouched(s, earlier, holder, visible, last);
      assert claims == earlier + [ClaimRetry(holder, last)];
      RetriedNext(s, earlier, holder, last);
      RipeIsDue(s, Run(s, earlier), last);
    }
  }

  lemma RipeIsDue(s: Tables, s': Tables, key: RunKey)
    requires s'.jobs == s.jobs && s'.clock == s.clock && (key in s'.runs <==> key in s.runs)
    requires key in s.runs ==> s'.runs[key] == s.runs[key]
    ensures RetryDue(s', key) <==> Ripe(s, key)
  {
  }

  lemma NothingRetried(s: Tables)
    ensures Retried(s, []) == []
  {
  }

  // An active job whose next run is this occurrence, which is due and has no run yet.
  predicate Opens(s: Tables, job: JobId, key: RunKey) {
    && job in s.jobs && s.jobs[job].status == Active && s.jobs[job].nextRunAt == Some(key.scheduledFor)
    && key.scheduledFor <= s.clock && key.job == job && key.attempt == 1 && key !in s.runs
  }

  lemma {:induction false} OtherJobsAreUntouched(s: Tables, claims: seq<Action>, holder: Holder, visible: seq<JobId>,
                                                 job: JobId)
    requires VisitsJobs(claims, holder, visible) && job !in visible[..|claims|]
    ensures var s' := Run(s, claims);
            && s'.clock == s.clock && (job in s'.jobs <==> job in s.jobs)
            && (job in s.jobs ==> s'.jobs[job] == s.jobs[job])
            && forall at: Instant :: RunKey(job, at, 1) in s'.runs <==> RunKey(job, at, 1) in s.runs
  {
    if claims != [] {
      var n := |claims| - 1;
      assert visible[..n + 1][n] == visible[n] && visible[..n] <= visible[..n + 1];
      OtherJobsAreUntouched(s, claims[..n], holder, visible, job);
    }
  }

  /** The runs started are exactly the first attempts of the occurrences that were due, at visited
      jobs, when the claim began. */
  lemma {:induction false} NewClaimsMissNothing(s: Tables, claims: seq<Action>, holder: Holder, visible: seq<JobId>,
                                                key: RunKey)
    requires VisitsJobs(claims, holder, visible)
    requires forall i, j :: 0 <= i < j < |visible| ==> visible[i] != visible[j]
    ensures key in Started(s, claims).0 <==> exists i :: 0 <= i < |claims| && Opens(s, visible[i], key)
  {
    hide Started, Run, Opens, JobDue, StartedBy;
    if claims == [] {
      NothingStarted(s);
    } else {
      var n := |claims| - 1;
      var earlier, last := claims[..n], visible[n];
      NewClaimsMissNothing(s, earlier, holder, visible, key);
      assert last !in visible[..n];
      OtherJobsAreUntouched(s, earlier, holder, visible, last);
      assert claims == earlier + [Action.ClaimNew(holder, last)];
      StartedNext(s, earlier, holder, last);
      OpensIsStarted(s, Run(s, earlier), last, key);
    }
  }

  lemma OpensIsStarted(s: Tables, s': Tables, job: JobId, key: RunKey)
    requires s'.clock == s.clock && (job in s'.jobs <==> job in s.jobs)
    requires job in s.jobs ==> s'.jobs[job] == s.jobs[job]
    requires forall at: Instant :: RunKey(job, at, 1) in s'.runs <==> RunKey(job, at, 1) in s.runs
    ensures JobDue(s', job) && StartedBy(s', job) == Some(key) <==> Opens(s, job, key)
  {
    assert key.job == job && key.attempt == 1 ==> key == RunKey(job, key.scheduledFor, 1);
  }

  lemma NothingStarted(s: Tables)
    ensures Started(s, []).0 == []
  {
  }

  // How many of the jobs are active and due.
  function DueOnes(s: Tables, visited: seq<JobId>): nat {
    if visited == [] then 0
    else
      var n := |visited| - 1;
      DueOnes(s, visited[..n]) + if IsDue(s, visited[n]) then 1 else 0
  }

  predicate IsDue(s: Tables, job: JobId) {
    && job in s.jobs && s.jobs[job].status == Active
    && s.jobs[job].nextRunAt.Some? && s.clock >= s.jobs[job].nextRunAt.value
  }

  /** What a claim of new runs counts against its batch are the visited jobs that were due when it
      began, whether or not their run was there already. */
  lemma {:induction false} DueJobsFillTheBatch(s: Tables, claims: seq<Action>, holder: Holder, visible: seq<JobId>)
    requires VisitsJobs(claims, holder, visible)
    requires forall i, j :: 0 <= i < j < |visible| ==> visible[i] != visible[j]
    ensures Started(s, claims).1 == DueOnes(s, visible[..|claims|])
  {
    hide Run, StartedBy, Step;
    if claims == [] {
      assert visible[..0] == [];
    } else {
      var n := |claims| - 1;
      var earlier, last := claims[..n], visible[n];
      DueJobsFillTheBatch(s, earlier, holder, visible);
      assert last !in visible[..n] && visible[..n + 1][..n] == visible[..n];
      OtherJobsAreUntouched(s, earlier, holder, visible, last);
      assert claims == earlier + [Action.ClaimNew(holder, last)];
      hide Started;
      StartedNext(s, earlier, holder, last);
    }
  }

  // ------------------------------------------------------------------ jobs

  predicate Defines(a: Action, job: JobId, row: Job) {
    && a.AddJob? && a.job == job && a.definition.handlerKey == row.handlerKey
    && a.definition.intervalSeconds == row.intervalSeconds && a.definition.maximumAttempts == row.maximumAttempts
  }

  lemma JobStep(s: Tables, a: Action, job: JobId)
    requires job in Step(s, a).jobs
    ensures var row := Step(s, a).jobs[job];
            if job in s.jobs then
              row.handlerKey == s.jobs[job].handlerKey && row.intervalSeconds == s.jobs[job].intervalSeconds &&
              row.maximumAttempts == s.jobs[job].maximumAttempts
            else Defines(a, job, row)
  {
    hide FailRuns, Matches, RetryDue;
  }

  /** Every job keeps the handler, the interval and the maximum that it was defined with. */
  lemma {:induction false} JobsTellThePast(clock: Instant, actions: seq<Action>, job: JobId)
    requires job in Run(Empty(clock), actions).jobs
    ensures exists i :: 0 <= i < |actions| && Defines(actions[i], job, Run(Empty(clock), actions).jobs[job])
  {
    if actions != [] {
      var before, a := actions[..|actions| - 1], actions[|actions| - 1];
      var s := Run(Empty(clock), before);
      hide Step;
      JobStep(s, a, job);
      if job in s.jobs {
        JobsTellThePast(clock, before, job);
        var i :| 0 <= i < |before| && Defines(before[i], job, s.jobs[job]);
        assert actions[i] == before[i];
      } else {
        assert Defines(actions[|before|], job, Run(Empty(clock), actions).jobs[job]);
      }
    }
  }
}
