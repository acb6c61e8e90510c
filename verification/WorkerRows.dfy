/** Where the rows of the trace table come from, when they may be claimed, and what they were charged: over whole runs. */
module WorkerRows {
  import opened Text
  import opened RetryPolicy
  import opened WorkerState
  import opened WorkerRuns
  import opened WorkerLaws
  import opened WorkerQueue
  import opened WorkerFailures

  // ---- what a wake does --------------------------------------------------------

  predicate Carries(t: Trace, agent: AgentId, key: Option<IdempotencyKey>) {
    t.status in {Queued, Running} && t.agent == agent && key.Some? && t.key == key
  }

  predicate Covers(t: Trace, agent: AgentId, task: Option<TaskId>) {
    t.status in {Queued, Running} && t.agent == agent && t.task == task
  }

  predicate IsNewest(traces: seq<Trace>, i: nat, agent: AgentId, task: Option<TaskId>) {
    i < |traces| && Covers(traces[i], agent, task) && forall j | i < j < |traces| :: !Covers(traces[j], agent, task)
  }

  lemma {:induction false} NewestUnitIsNewest(traces: seq<Trace>, input: WakeInput)
    ensures NewestUnit(traces, input) < |traces| ==> IsNewest(traces, NewestUnit(traces, input), input.agent, input.task)
  {
    if traces != [] && !SameUnit(traces[|traces| - 1], input) {
      NewestUnitIsNewest(traces[..|traces| - 1], input);
    }
  }

  /**
   A wake: for an unknown agent nothing; with the key of an active trace of the agent no row; else it is counted on the
   newest active trace of the work unit; else a row with the caller's key and schedule is queued.
   */
  lemma WakeMeans(db: Db, input: WakeInput)
    ensures var (d, r) := Wake(db, input);
            var duplicate := exists t :: t in db.traces && Carries(t, input.agent, input.key);
            var covered := exists t :: t in db.traces && Covers(t, input.agent, input.task);
            && (input.agent !in db.agents ==> d == db && r == AgentNotFound)
            && (input.agent in db.agents && duplicate ==>
                  && d == db.(wakes := db.wakes + 1, duplicates := db.duplicates + 1)
                  && r.Woken? && r.coalesced && r.trace < |db.traces| && Carries(db.traces[r.trace], input.agent, input.key))
            && (input.agent in db.agents && !duplicate && covered ==>
                  && r.Woken? && r.coalesced && IsNewest(db.traces, r.trace, input.agent, input.task)
                  && var t := db.traces[r.trace];
                  d == db.(wakes := db.wakes + 1, traces := db.traces[r.trace := t.(coalesced := t.coalesced + 1)]))
            && (input.agent in db.agents && !duplicate && !covered ==>
                  && r == Woken(|db.traces|, false)
                  && |d.traces| == |db.traces| + 1 && d.traces[..|db.traces|] == db.traces
                  && Queues(d.traces[|db.traces|], input)
                  && d == db.(wakes := db.wakes + 1, traces := d.traces, stages := db.stages + [Idle]))
  {
    WakeFinds(db.traces, input);
    hide FirstKey, NewestUnit, IsNewest, Covers, Carries;
  }

  // The two queries find a trace exactly if there is one.
  lemma WakeFinds(traces: seq<Trace>, input: WakeInput)
    ensures var dup := FirstKey(traces, input);
            && (dup < |traces| <==> exists t :: t in traces && Carries(t, input.agent, input.key))
            && (dup < |traces| ==> Carries(traces[dup], input.agent, input.key))
    ensures var unit := NewestUnit(traces, input);
            && (unit < |traces| <==> exists t :: t in traces && Covers(t, input.agent, input.task))
            && (unit < |traces| ==> IsNewest(traces, unit, input.agent, input.task))
  {
    NewestUnitIsNewest(traces, input);
    var dup, unit := FirstKey(traces, input), NewestUnit(traces, input);
    hide FirstKey, NewestUnit, IsNewest;
    assert dup < |traces| ==> traces[dup] in traces && Carries(traces[dup], input.agent, input.key);
    assert unit < |traces| ==> traces[unit] in traces && Covers(traces[unit], input.agent, input.task);
    if t :| t in traces && Carries(t, input.agent, input.key) {
      var i :| 0 <= i < |traces| && traces[i] == t;
      assert SameKey(traces[i], input);
    }
    if t :| t in traces && Covers(t, input.agent, input.task) {
      var i :| 0 <= i < |traces| && traces[i] == t;
      assert SameUnit(traces[i], input);
    }
  }

  // A queued row as the wake asked for it.
  predicate Queues(t: Trace, input: WakeInput) {
    && t.status == Queued && t.agent == input.agent && t.task == input.task && t.key == input.key
    && t.scheduledAt == input.scheduledAt && t.retryOf == input.retryOf && t.delayMs == input.delayMs
    && t.failureRetryAttempt == input.failureRetryAttempt && t.continuationAttempt == input.continuationAttempt
    && t.coalesced == 0 && t.usage == Usage(0, 0, 0, 0)
  }

  // ---- where a row comes from --------------------------------------------------

  // What never changes about a row.
  predicate SameRow(t: Trace, u: Trace) {
    && t.agent == u.agent && t.task == u.task && t.key == u.key && t.scheduledAt == u.scheduledAt && t.retryOf == u.retryOf
    && t.delayMs == u.delayMs && t.failureRetryAttempt == u.failureRetryAttempt && t.continuationAttempt == u.continuationAttempt
  }

  // A row as somebody outside asked for it.
  predicate AskedFor(t: Trace, input: WakeInput) {
    && t.agent == input.agent && t.task == input.task && t.key == input.key && t.scheduledAt == input.scheduledAt
    && t.retryOf == None && t.failureRetryAttempt == 0 && t.continuationAttempt == 0
  }

  // A retry of a failed trace, decided at `now`, waits out its back-off.
  predicate RetryRow(t: Trace, p: nat, parent: Trace, now: nat) {
    && t.agent == parent.agent && t.task == parent.task && t.retryOf == Some(p)
    && parent.status == Failed && parent.failureRetryAttempt < 3
    && t.failureRetryAttempt == parent.failureRetryAttempt + 1 && t.continuationAttempt == 0
    && t.key == Some(RetryKey(p, parent.failureRetryAttempt + 1))
    && t.scheduledAt == Some(now + [30_000, 120_000, 600_000][parent.failureRetryAttempt])
  }

  // A continuation of a trace that succeeded without progress may run at once.
  predicate ContinuationRow(t: Trace, p: nat, parent: Trace, liveness: Option<Liveness>) {
    && t.agent == parent.agent && t.task == parent.task && t.retryOf == Some(p)
    && parent.status == Succeeded && liveness in {Some(PlanOnly), Some(EmptyResponse)} && parent.task.Some?
    && parent.continuationAttempt < 2
    && t.continuationAttempt == parent.continuationAttempt + 1 && t.failureRetryAttempt == 0
    && t.key == Some(ContinuationKey(parent.task.value, p, liveness.value, parent.continuationAttempt + 1))
    && t.scheduledAt == None
  }

  ghost predicate Made(db: Db, s: Step, t: Trace) {
    match s
    case WakeFrom(input) => AskedFor(t, input)
    case DecideNext(p, now) =>
      && p < |db.traces| && p < |db.stages| && db.stages[p].Synced? && db.stages[p].run.Ran?
      && (RetryRow(t, p, db.traces[p], now) || ContinuationRow(t, p, db.traces[p], db.stages[p].run.liveness))
    case _ => false
  }

  // The old rows stay, and a step makes one new row at most.
  ghost predicate RowsGrow(db: Db, s: Step, d: Db) {
    && |db.traces| <= |d.traces| <= |db.traces| + 1
    && (forall k | 0 <= k < |db.traces| :: SameRow(db.traces[k], d.traces[k]))
    && (|d.traces| > |db.traces| ==> Made(db, s, d.traces[|db.traces|]))
  }

  lemma WakeRows(db: Db, input: WakeInput)
    ensures var d := Wake(db, input).0;
            && |db.traces| <= |d.traces| <= |db.traces| + 1
            && (forall k | 0 <= k < |db.traces| :: SameRow(db.traces[k], d.traces[k]))
            && (|d.traces| > |db.traces| ==> Queues(d.traces[|db.traces|], input))
  {
    WakeMeans(db, input);
    var d := Wake(db, input).0;
    hide Wake, Queues, Covers, Carries;
    if |d.traces| > |db.traces| {
      assert forall k | 0 <= k < |db.traces| :: d.traces[k] == d.traces[..|db.traces|][k];
    }
  }

  lemma DecideRows(db: Db, i: nat, now: nat)
    requires Inv(db) && Enabled(db, DecideNext(i, now))
    ensures RowsGrow(db, DecideNext(i, now), Decide(db, i, now))
  {
    var t, run := db.traces[i], db.stages[i].run;
    assert StageOk(db, i) && run.Ran? && t.status == run.outcome;
    hide Inv, Wake, DecideRetry, DecideContinuation;
    if run.outcome == Succeeded && t.task.Some? && run.liveness.Some? && run.liveness.value != Normal {
      ContinuationRows(db, i, run);
    } else if run.outcome == Failed {
      RetryRows(db, i, now, run);
    }
  }

  lemma RetryRows(db: Db, i: nat, now: nat, run: Run)
    requires i < |db.traces| == |db.stages| && db.stages[i] == Synced(run) && run.Ran? && db.traces[i].status == Failed
    ensures var t := db.traces[i];
            RowsGrow(db, DecideNext(i, now), DecideRetry(db, now, i, t.task, t.agent, run.errorCode, t.failureRetryAttempt).0)
  {
    var t := db.traces[i];
    WakeRows(db, RetryInput(t, i, now));
    var d := DecideRetry(db, now, i, t.task, t.agent, run.errorCode, t.failureRetryAttempt).0;
    assert d == db || (t.failureRetryAttempt < 3 && d == Wake(db, RetryInput(t, i, now)).0) by { hide Wake; }
    hide Wake, DecideRetry;
    if t.failureRetryAttempt < 3 {
      assert t.failureRetryAttempt in {0, 1, 2};
    }
  }

  lemma ContinuationRows(db: Db, i: nat, run: Run)
    requires i < |db.traces| == |db.stages| && db.stages[i] == Synced(run) && run.Ran? && db.traces[i].status == Succeeded
    requires db.traces[i].task.Some? && run.liveness.Some? && run.liveness.value != Normal
    ensures var t := db.traces[i];
            forall now :: RowsGrow(db, DecideNext(i, now),
              DecideContinuation(db, i, t.task.value, t.agent, run.liveness.value, t.continuationAttempt).0)
  {
    var t := db.traces[i];
    var input := WakeInput(t.agent, t.task, Some(ContinuationKey(t.task.value, i, run.liveness.value, t.continuationAttempt + 1)),
                           None, 0, t.continuationAttempt + 1, Some(i), 0);
    WakeRows(db, input);
    var d := DecideContinuation(db, i, t.task.value, t.agent, run.liveness.value, t.continuationAttempt).0;
    assert d == db || (t.continuationAttempt < 2 && d == Wake(db, input).0) by { hide Wake; }
    hide Wake, DecideContinuation;
  }

  lemma StepRows(db: Db, s: Step)
    requires Inv(db) && Enabled(db, s)
    ensures RowsGrow(db, s, Next(db, s))
  {
    if s.WakeFrom? {
      WakeRows(db, s.input);
      hide Wake, Inv;
    } else if s.DecideNext? {
      DecideRows(db, s.i, s.now);
      hide Decide, Inv, RowsGrow;
    } else {
      hide Inv, Oldest, SyncSucceeded, SyncFailed, SyncStart;
    }
  }

  // ---- over whole runs ---------------------------------------------------------

  // The table before step j of a run.
  ghost function Before(start: Db, steps: seq<Step>, j: nat): Db
    requires j <= |steps|
  {
    Execute(start, steps[..j])
  }

  // Step j of the run makes row i, which is t.
  ghost predicate MadeAt(start: Db, steps: seq<Step>, j: nat, i: nat, t: Trace) {
    && j < |steps| && Enabled(Before(start, steps, j), steps[j])
    && |Before(start, steps, j).traces| == i && Made(Before(start, steps, j), steps[j], t)
  }

  lemma MadeIsKept(db: Db, s: Step, t: Trace, u: Trace)
    requires Made(db, s, t) && SameRow(t, u)
    ensures Made(db, s, u)
  {
  }

  lemma LastStep(start: Db, steps: seq<Step>)
    requires steps != []
    ensures var n := |steps| - 1;
            var b := Before(start, steps, n);
            && b == Execute(start, steps[..n])
            && Execute(start, steps) == (if Enabled(b, steps[n]) then Next(b, steps[n]) else b)
            && forall j: nat | j < n :: Before(start, steps[..n], j) == Before(start, steps, j)
  {
    forall j: nat | j < |steps| - 1 ensures Before(start, steps[..|steps| - 1], j) == Before(start, steps, j) {
      assert steps[..|steps| - 1][..j] == steps[..j];
    }
    hide Enabled, Next;
  }

  /**
   Every row of every run was made by one of its steps: by a wake, with the caller's key and schedule, or by the decision
   about a trace, as its retry, due when its back-off is over, or as its continuation, due at once.
   */
  lemma {:induction false} RowsAreMade(agents: set<AgentId>, tasks: map<TaskId, Task>, steps: seq<Step>, i: nat)
    requires i < |Execute(Empty(agents, tasks), steps).traces|
    ensures exists j :: MadeAt(Empty(agents, tasks), steps, j, i, Execute(Empty(agents, tasks), steps).traces[i])
  {
    var start := Empty(agents, tasks);
    if steps != [] {
      var n := |steps| - 1;
      var init := steps[..n];
      var b, d := Execute(start, init), Execute(start, steps);
      LastStep(start, steps);
      ExecuteKeeps(agents, tasks, init);
      hide Execute, Inv, Next, Enabled, Made, SameRow;
      if Enabled(b, steps[n]) {
        StepRows(b, steps[n]);
      }
      if i < |b.traces| {
        RowsAreMade(agents, tasks, init, i);
        var j: nat :| MadeAt(start, init, j, i, b.traces[i]);
        if Enabled(b, steps[n]) {
          MadeIsKept(Before(start, init, j), init[j], b.traces[i], d.traces[i]);
        }
        assert MadeAt(start, steps, j, i, d.traces[i]);
      } else {
        assert MadeAt(start, steps, n, i, d.traces[i]);
      }
    }
  }

  // ---- when a row may be claimed -----------------------------------------------

  // A tick that finds the row due.
  predicate DueFor(s: Step, t: Trace) {
    s.Tick? && (t.scheduledAt == None || t.scheduledAt.value <= s.now)
  }

  // Step j of the run claims row i, which is t: a tick that finds it due.
  ghost predicate ClaimedAt(start: Db, steps: seq<Step>, j: nat, i: nat, t: Trace) {
    && j < |steps| && var b := Before(start, steps, j);
    && Enabled(b, steps[j]) && i !in b.claims && i in Next(b, steps[j]).claims && DueFor(steps[j], t)
  }

  lemma ClaimsAreDue(db: Db, s: Step, i: nat)
    requires Enabled(db, s) && i !in db.claims && i in Next(db, s).claims
    ensures i < |db.traces| && db.traces[i].status == Queued && DueFor(s, db.traces[i])
  {
    if s.Tick? {
      assert i in Oldest(db.traces, s.now, s.limit);
      hide Oldest;
    } else {
      ClaimsStay(db, s);
    }
  }

  lemma ClaimsStay(db: Db, s: Step)
    requires Enabled(db, s) && !s.Tick?
    ensures Next(db, s).claims == db.claims
  {
    if s.WakeFrom? {
      WakeMeans(db, s.input);
      hide Wake, Queues, Covers, Carries;
    } else if s.DecideNext? {
      DecideKeepsClaims(db, s.i, s.now);
      hide Decide;
    }
  }

  lemma DecideKeepsClaims(db: Db, i: nat, now: nat)
    requires Enabled(db, DecideNext(i, now))
    ensures Decide(db, i, now).claims == db.claims
  {
    forall input ensures Wake(db, input).0.claims == db.claims {
      WakeMeans(db, input);
      hide Wake, Queues, Covers, Carries;
    }
    hide Wake;
  }

  lemma ClaimIsKept(start: Db, steps: seq<Step>, j: nat, i: nat, t: Trace, u: Trace)
    requires steps != [] && ClaimedAt(start, steps[..|steps| - 1], j, i, t) && SameRow(t, u)
    ensures ClaimedAt(start, steps, j, i, u)
  {
    LastStep(start, steps);
    hide Execute, Next, Enabled;
  }

  lemma NewClaim(start: Db, steps: seq<Step>, i: nat)
    requires steps != []
    requires i !in Execute(start, steps[..|steps| - 1]).claims && i in Execute(start, steps).claims
    ensures var b := Execute(start, steps[..|steps| - 1]);
            i < |b.traces| && forall u | SameRow(b.traces[i], u) :: ClaimedAt(start, steps, |steps| - 1, i, u)
  {
    LastStep(start, steps);
    ClaimsAreDue(Execute(start, steps[..|steps| - 1]), steps[|steps| - 1], i);
    hide Execute, Next, Enabled;
  }

  lemma LastRows(agents: set<AgentId>, tasks: map<TaskId, Task>, steps: seq<Step>)
    requires steps != []
    ensures var b, d := Execute(Empty(agents, tasks), steps[..|steps| - 1]), Execute(Empty(agents, tasks), steps);
            |b.traces| <= |d.traces| && forall k | 0 <= k < |b.traces| :: SameRow(b.traces[k], d.traces[k])
  {
    var start, n := Empty(agents, tasks), |steps| - 1;
    var b := Execute(start, steps[..n]);
    LastStep(start, steps);
    ExecuteKeeps(agents, tasks, steps[..n]);
    hide Execute, Inv, Next, Enabled, Made;
    if Enabled(b, steps[n]) {
      StepRows(b, steps[n]);
    }
  }

  /** In every run a claimed row was claimed by a tick at which it was due; so no tick takes a row before its time. */
  lemma {:induction false} ClaimedWhenDue(agents: set<AgentId>, tasks: map<TaskId, Task>, steps: seq<Step>, i: nat)
    requires i in Execute(Empty(agents, tasks), steps).claims
    ensures i < |Execute(Empty(agents, tasks), steps).traces|
    ensures exists j: nat :: ClaimedAt(Empty(agents, tasks), steps, j, i, Execute(Empty(agents, tasks), steps).traces[i])
  {
    var start := Empty(agents, tasks);
    if steps != [] {
      var n := |steps| - 1;
      var init := steps[..n];
      var b, d := Execute(start, init), Execute(start, steps);
      LastRows(agents, tasks, steps);
      hide Execute, ClaimedAt, SameRow;
      if i in b.claims {
        ClaimedWhenDue(agents, tasks, init, i);
        var j: nat :| ClaimedAt(start, init, j, i, b.traces[i]);
        ClaimIsKept(start, steps, j, i, b.traces[i], d.traces[i]);
      } else {
        NewClaim(start, steps, i);
        assert SameRow(b.traces[i], d.traces[i]);
      }
    }
  }

  // Step j decided to retry p, and t is that retry.
  ghost predicate RetriedAt(start: Db, steps: seq<Step>, j: nat, p: nat, t: Trace) {
    && j < |steps| && steps[j].DecideNext? && steps[j].i == p && p < |Before(start, steps, j).traces|
    && RetryRow(t, p, Before(start, steps, j).traces[p], steps[j].now)
  }

  // A retry decided at `since` is due when 30 s, 2 min or 10 min have passed.
  function DueTime(since: nat, attempt: nat): nat
    requires 1 <= attempt <= 3
  {
    since + [30_000, 120_000, 600_000][attempt - 1]
  }

  // Row i, which is t, was claimed by a tick no earlier than `due`.
  ghost predicate ClaimedFrom(start: Db, steps: seq<Step>, i: nat, t: Trace, due: nat) {
    exists k: nat :: ClaimedAt(start, steps, k, i, t) && due <= steps[k].now
  }

  // Step j decided the retry i of p, which no tick took before its back-off was over.
  ghost predicate BacksOff(start: Db, steps: seq<Step>, j: nat, p: nat, i: nat)
    requires i < |Execute(start, steps).traces|
  {
    var d := Execute(start, steps);
    var t := d.traces[i];
    && RetriedAt(start, steps, j, p, t)
    && (i in d.claims ==> ClaimedFrom(start, steps, i, t, DueTime(steps[j].now, t.failureRetryAttempt)))
  }

  /** In every run a retry was decided once, and is claimed, if it is, by a tick at least its back-off later. */
  lemma RetriesBackOff(agents: set<AgentId>, tasks: map<TaskId, Task>, steps: seq<Step>, i: nat, p: nat)
    requires var d := Execute(Empty(agents, tasks), steps);
             i < |d.traces| && d.traces[i].retryOf == Some(p) && d.traces[i].failureRetryAttempt > 0
    ensures exists j: nat :: BacksOff(Empty(agents, tasks), steps, j, p, i)
  {
    var start, d := Empty(agents, tasks), Execute(Empty(agents, tasks), steps);
    var t := d.traces[i];
    hide Execute;
    RowsAreMade(agents, tasks, steps, i);
    var j: nat :| MadeAt(start, steps, j, i, t);
    MadeIsRetried(start, steps, j, i, t, p);
    if i in d.claims {
      ClaimedWhenDue(agents, tasks, steps, i);
      hide MadeAt, RetriedAt, ClaimedAt;
      var k: nat :| ClaimedAt(start, steps, k, i, t);
      ClaimIsDue(start, steps, k, i, t);
      assert ClaimedFrom(start, steps, i, t, DueTime(steps[j].now, t.failureRetryAttempt));
    }
    assert BacksOff(start, steps, j, p, i);
  }

  lemma ClaimIsDue(start: Db, steps: seq<Step>, k: nat, i: nat, t: Trace)
    requires ClaimedAt(start, steps, k, i, t)
    ensures k < |steps| && DueFor(steps[k], t)
  {
  }

  lemma MadeIsRetried(start: Db, steps: seq<Step>, j: nat, i: nat, t: Trace, p: nat)
    requires MadeAt(start, steps, j, i, t) && t.retryOf == Some(p) && t.failureRetryAttempt > 0
    ensures RetriedAt(start, steps, j, p, t) && t.failureRetryAttempt <= 3
    ensures t.scheduledAt == Some(DueTime(steps[j].now, t.failureRetryAttempt))
  {
    hide Execute, Next, Enabled;
  }

  // ---- what a row was charged --------------------------------------------------

  // What a row at this stage should have been charged: what its run reported, once there is one.
  function Charge(s: Stage): Usage {
    if (s.Finalized? || s.Synced? || s.Decided? || s.Over?) && s.run.Ran? && s.run.usage.Some? then s.run.usage.value
    else Usage(0, 0, 0, 0)
  }

  ghost predicate ChargedOk(db: Db) {
    forall i | 0 <= i < |db.traces| && i < |db.stages| :: db.traces[i].usage == Charge(db.stages[i])
  }

  lemma FollowsCharge(a: Stage, b: Stage)
    requires Follows(a, b) && !b.Finalized?
    ensures Charge(a) == Charge(b)
  {
  }

  // A table whose rows carry the usage they had, and nothing if they are new.
  ghost predicate SameUsage(db: Db, d: Db) {
    && |db.traces| <= |d.traces| && |d.traces| == |d.stages|
    && (forall k | 0 <= k < |db.traces| :: d.traces[k].usage == db.traces[k].usage)
    && (forall k | |db.traces| <= k < |d.traces| :: d.traces[k].usage == Usage(0, 0, 0, 0))
  }

  lemma WakeUsage(db: Db, input: WakeInput)
    requires |db.traces| == |db.stages|
    ensures SameUsage(db, Wake(db, input).0)
  {
    WakeMeans(db, input);
    var d := Wake(db, input).0;
    hide Wake, Covers, Carries;
    if |d.traces| > |db.traces| {
      assert forall k | 0 <= k < |db.traces| :: d.traces[k] == d.traces[..|db.traces|][k];
    }
  }

  lemma DecideUsage(db: Db, i: nat, now: nat)
    requires Enabled(db, DecideNext(i, now))
    ensures SameUsage(db, Decide(db, i, now))
  {
    var t, run := db.traces[i], db.stages[i].run;
    hide Wake, DecideRetry, DecideContinuation;
    if run.Ran? && run.outcome == Succeeded && t.task.Some? && run.liveness.Some? && run.liveness.value != Normal {
      ContinuationIsWake(db, i, t, t.task.value, run.liveness.value);
      WakeUsage(db, WakeInput(t.agent, t.task, Some(ContinuationKey(t.task.value, i, run.liveness.value, t.continuationAttempt + 1)),
                              None, 0, t.continuationAttempt + 1, Some(i), 0));
    } else if run.Ran? && run.outcome == Failed {
      RetryIsWake(db, i, t, now, run.errorCode);
      WakeUsage(db, RetryInput(t, i, now));
    }
  }

  lemma UsageStays(db: Db, s: Step)
    requires Inv(db) && Enabled(db, s) && !s.Finish?
    ensures SameUsage(db, Next(db, s))
  {
    if s.WakeFrom? {
      WakeUsage(db, s.input);
      hide Wake, Inv;
    } else if s.DecideNext? {
      DecideUsage(db, s.i, s.now);
      hide Decide;
    } else {
      hide Inv, Oldest, SyncSucceeded, SyncFailed, SyncStart;
    }
  }

  // Only an adapter's result finalizes a trace.
  lemma NotFinalized(db: Db, s: Step, k: nat)
    requires Inv(db) && Enabled(db, s) && !s.Finish? && k < |db.stages| && k < |Next(db, s).stages| && Next(db, s).stages[k].Finalized?
    ensures db.stages[k] == Next(db, s).stages[k]
  {
    if s.WakeFrom? {
      WakeMeans(db, s.input);
      hide Wake, Inv, Covers, Carries, Queues;
    } else if s.DecideNext? {
      assert StageOk(db, s.i);
      if k == s.i { DecideGrown(db, s.i, s.now); } else { OthersStay(db, s, k); }
      hide Decide, Inv;
    } else {
      hide Inv, Oldest, SyncSucceeded, SyncFailed, SyncStart;
    }
  }

  lemma StepCharges(db: Db, s: Step)
    requires Inv(db) && Enabled(db, s) && ChargedOk(db)
    ensures ChargedOk(Next(db, s))
  {
    var d := Next(db, s);
    if s.Finish? {
      assert StageOk(db, s.i);
      hide Inv;
    } else {
      StepGrows(db, s);
      UsageStays(db, s);
      hide Inv, Next, Enabled, Follows, Charge;
      forall i | 0 <= i < |d.traces| && i < |d.stages| ensures d.traces[i].usage == Charge(d.stages[i]) {
        if i < |db.traces| {
          if d.stages[i].Finalized? { NotFinalized(db, s, i); } else { FollowsCharge(db.stages[i], d.stages[i]); }
        } else {
          IdleIsFree();
        }
      }
    }
  }

  lemma IdleIsFree()
    ensures Charge(Idle) == Usage(0, 0, 0, 0)
  {
  }

  /** In every run each row is charged what its run reported, and nothing before it has run or if nothing was reported. */
  lemma {:induction false} RowsAreCharged(agents: set<AgentId>, tasks: map<TaskId, Task>, steps: seq<Step>)
    ensures ChargedOk(Execute(Empty(agents, tasks), steps))
  {
    if steps != [] {
      var start, n := Empty(agents, tasks), |steps| - 1;
      RowsAreCharged(agents, tasks, steps[..n]);
      ExecuteKeeps(agents, tasks, steps[..n]);
      var b := Execute(start, steps[..n]);
      LastStep(start, steps);
      hide Execute, Inv, Next, Enabled, ChargedOk;
      if Enabled(b, steps[n]) {
        StepCharges(b, steps[n]);
      }
    }
  }

  // ---- which traces are followed up --------------------------------------------

  ghost predicate FollowedUp(db: Db, i: nat) {
    exists k :: 0 <= k < |db.traces| && db.traces[k].retryOf == Some(i)
  }

  // The agent has an active trace for the task, or one with the follow-up's key.
  ghost predicate Taken(db: Db, agent: AgentId, task: Option<TaskId>, key: IdempotencyKey) {
    exists t :: t in db.traces && (Covers(t, agent, task) || Carries(t, agent, Some(key)))
  }

  ghost predicate WantsRetry(db: Db, i: nat)
    requires i < |db.traces| && i < |db.stages| && db.stages[i].Synced? && db.stages[i].run.Ran?
  {
    var t, run := db.traces[i], db.stages[i].run;
    && run.outcome == Failed && t.failureRetryAttempt < 3
    && run.errorCode in {Some("gateway_unreachable"), Some("gateway_handshake_timeout"), Some("timeout"),
                         Some("network_error"), Some("adapter_error")}
    && !Taken(db, t.agent, t.task, RetryKey(i, t.failureRetryAttempt + 1))
  }

  ghost predicate WantsContinuation(db: Db, i: nat)
    requires i < |db.traces| && i < |db.stages| && db.stages[i].Synced? && db.stages[i].run.Ran?
  {
    var t, run := db.traces[i], db.stages[i].run;
    && run.outcome == Succeeded && run.liveness in {Some(PlanOnly), Some(EmptyResponse)} && t.continuationAttempt < 2
    && t.task.Some? && t.task.value in db.tasks
    && db.tasks[t.task.value].status !in {Done, Review} && db.tasks[t.task.value].assignee == Some(t.agent)
    && !Taken(db, t.agent, t.task, ContinuationKey(t.task.value, i, run.liveness.value, t.continuationAttempt + 1))
  }

  lemma FollowUpByWake(db: Db, d: Db, i: nat, input: WakeInput)
    requires d.traces == Wake(db, input).0.traces && input.agent in db.agents && input.retryOf == Some(i) && input.key.Some?
    requires !FollowedUp(db, i)
    ensures FollowedUp(d, i) <==> !Taken(db, input.agent, input.task, input.key.value)
  {
    WakeMeans(db, input);
    hide Wake, Carries, Covers;
    if Taken(db, input.agent, input.task, input.key.value) {
      assert |d.traces| == |db.traces|;
      assert forall k | 0 <= k < |db.traces| :: d.traces[k].retryOf == db.traces[k].retryOf;
    } else {
      assert d.traces[|db.traces|].retryOf == Some(i);
    }
  }

  lemma RetryFollowsUpIff(db: Db, i: nat, now: nat)
    requires Enabled(db, DecideNext(i, now)) && db.stages[i].run.Ran? && db.stages[i].run.outcome == Failed
    requires db.traces[i].agent in db.agents && !FollowedUp(db, i)
    ensures var t := db.traces[i];
            FollowedUp(DecideRetry(db, now, i, t.task, t.agent, db.stages[i].run.errorCode, t.failureRetryAttempt).0, i)
            <==> WantsRetry(db, i)
  {
    var t, code := db.traces[i], db.stages[i].run.errorCode;
    var c := DecideRetry(db, now, i, t.task, t.agent, code, t.failureRetryAttempt).0;
    hide Wake, FollowedUp, Taken;
    if IsTransientError(code) && t.failureRetryAttempt < 3 {
      assert t.failureRetryAttempt in {0, 1, 2};
      assert c == Wake(db, RetryInput(t, i, now)).0;
      FollowUpByWake(db, c, i, RetryInput(t, i, now));
    }
  }

  lemma ContinuationFollowsUpIff(db: Db, i: nat, now: nat)
    requires Enabled(db, DecideNext(i, now)) && db.stages[i].run.Ran? && db.stages[i].run.outcome == Succeeded
    requires db.traces[i].agent in db.agents && !FollowedUp(db, i)
    requires db.traces[i].task.Some? && db.stages[i].run.liveness.Some?
    ensures var t, liveness := db.traces[i], db.stages[i].run.liveness.value;
            FollowedUp(DecideContinuation(db, i, t.task.value, t.agent, liveness, t.continuationAttempt).0, i)
            <==> WantsContinuation(db, i)
  {
    var t, liveness := db.traces[i], db.stages[i].run.liveness.value;
    var task := t.task.value;
    var c := DecideContinuation(db, i, task, t.agent, liveness, t.continuationAttempt).0;
    var input := WakeInput(t.agent, t.task, Some(ContinuationKey(task, i, liveness, t.continuationAttempt + 1)),
                           None, 0, t.continuationAttempt + 1, Some(i), 0);
    hide Wake, FollowedUp, Taken;
    if liveness != Normal && t.continuationAttempt < 2 && task in db.tasks && db.tasks[task].status !in {Done, Review}
       && db.tasks[task].assignee == Some(t.agent) {
      assert c == Wake(db, input).0;
      FollowUpByWake(db, c, i, input);
    }
  }

  lemma SameTraces(a: Db, b: Db, i: nat)
    requires a.traces == b.traces
    ensures FollowedUp(a, i) <==> FollowedUp(b, i)
  {
  }

  lemma DecisionFollowsUpIff(db: Db, i: nat, now: nat)
    requires Enabled(db, DecideNext(i, now)) && db.stages[i].run.Ran? && db.traces[i].agent in db.agents && !FollowedUp(db, i)
    ensures FollowedUp(Decide(db, i, now), i) <==> WantsRetry(db, i) || WantsContinuation(db, i)
  {
    var t, run := db.traces[i], db.stages[i].run;
    var d := Decide(db, i, now);
    hide DecideRetry, DecideContinuation, FollowedUp, Taken;
    if run.outcome == Succeeded && t.task.Some? && run.liveness.Some? && run.liveness.value != Normal {
      ContinuationFollowsUpIff(db, i, now);
      SameTraces(DecideContinuation(db, i, t.task.value, t.agent, run.liveness.value, t.continuationAttempt).0, d, i);
    } else if run.outcome == Failed {
      RetryFollowsUpIff(db, i, now);
      SameTraces(DecideRetry(db, now, i, t.task, t.agent, run.errorCode, t.failureRetryAttempt).0, d, i);
    } else {
      SameTraces(db, d, i);
    }
  }

  lemma {:induction false} RunsKnowAgents(agents: set<AgentId>, tasks: map<TaskId, Task>, steps: seq<Step>)
    ensures var d := Execute(Empty(agents, tasks), steps); ParentsRan(d) && KnownAgents(d)
  {
    if steps != [] {
      var start, n := Empty(agents, tasks), |steps| - 1;
      RunsKnowAgents(agents, tasks, steps[..n]);
      ExecuteKeeps(agents, tasks, steps[..n]);
      var b := Execute(start, steps[..n]);
      LastStep(start, steps);
      hide Execute, Inv, Next, Enabled, ParentsRan, KnownAgents;
      if Enabled(b, steps[n]) {
        ParentsStay(b, steps[n]);
      }
    }
  }

  /**
   In every run the decision about a trace queues a follow-up exactly if it failed in a retriable way for less than the
   fourth time, or made no progress for less than the third time on an open task its agent owns, and the agent has no
   active trace for that task.
   */
  lemma FollowedUpIff(agents: set<AgentId>, tasks: map<TaskId, Task>, steps: seq<Step>, i: nat, now: nat)
    requires Enabled(Execute(Empty(agents, tasks), steps), DecideNext(i, now))
    ensures var db := Execute(Empty(agents, tasks), steps);
            && db.stages[i].run.Ran?
            && (FollowedUp(Next(db, DecideNext(i, now)), i) <==> WantsRetry(db, i) || WantsContinuation(db, i))
  {
    var db := Execute(Empty(agents, tasks), steps);
    ExecuteKeeps(agents, tasks, steps);
    RunsKnowAgents(agents, tasks, steps);
    assert StageOk(db, i);
    assert !FollowedUp(db, i) by {
      forall k | 0 <= k < |db.traces| ensures db.traces[k].retryOf != Some(i) {
        assert LineageOk(db, k);
      }
    }
    hide Execute, Inv, Decide, FollowedUp, WantsRetry, WantsContinuation;
    DecisionFollowsUpIff(db, i, now);
  }
}
