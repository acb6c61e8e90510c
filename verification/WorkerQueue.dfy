/** The queue is fair, and follow-up chains as a whole are not bounded. */
module WorkerQueue {
  import opened Text
  import opened RetryPolicy
  import opened WorkerState
  import opened WorkerRuns

  // ---- first in, first out -----------------------------------------------------

  function CountQueued(traces: seq<Trace>): nat {
    if traces == [] then 0
    else CountQueued(traces[..|traces| - 1]) + if traces[|traces| - 1].status == Queued then 1 else 0
  }

  // Traces still queued that are older than trace i.
  function Older(db: Db, i: nat): nat
    requires i <= |db.traces|
  {
    CountQueued(db.traces[..i])
  }

  lemma {:induction false} CountShrinks(a: seq<Trace>, b: seq<Trace>)
    requires |a| == |b| && forall k | 0 <= k < |a| :: b[k].status == Queued ==> a[k].status == Queued
    ensures CountQueued(b) <= CountQueued(a)
  {
    if a != [] {
      CountShrinks(a[..|a| - 1], b[..|b| - 1]);
    }
  }

  lemma {:induction false} CountClaimed(a: seq<Trace>, b: seq<Trace>, ids: seq<nat>)
    requires |a| == |b|
    requires forall k | 0 <= k < |ids| :: ids[k] < |a| && a[ids[k]].status == Queued
    requires forall j, k | 0 <= j < k < |ids| :: ids[j] < ids[k]
    requires forall k | 0 <= k < |a| :: b[k].status == Queued <==> a[k].status == Queued && k !in ids
    ensures CountQueued(b) + |ids| == CountQueued(a)
  {
    if a == [] {
      assert ids == [];
    } else {
      var n := |a| - 1;
      assert CountQueued(a) == CountQueued(a[..n]) + if a[n].status == Queued then 1 else 0;
      assert CountQueued(b) == CountQueued(b[..n]) + if b[n].status == Queued then 1 else 0;
      hide CountQueued;
      if ids != [] && ids[|ids| - 1] == n {
        var rest := ids[..|ids| - 1];
        assert ids == rest + [n];
        assert n in ids;
        CountClaimed(a[..n], b[..n], rest);
      } else {
        assert n !in ids;
        CountClaimed(a[..n], b[..n], ids);
      }
    }
  }

  /** A tick claims an eligible trace, or as many older ones as the batch holds. */
  lemma TickServesOldest(db: Db, now: nat, limit: nat, i: nat)
    requires Inv(db) && i < |db.traces| && Eligible(db.traces[i], now)
    ensures var d := Claim(db, now, limit);
            && i < |d.traces|
            && (d.traces[i].status == Queued ==> d.traces[i] == db.traces[i] && Older(d, i) + limit == Older(db, i))
            && (d.traces[i].status != Queued ==> i in Oldest(db.traces, now, limit))
  {
    var d, ids := Claim(db, now, limit), Oldest(db.traces, now, limit);
    ClaimKeeps(db, now, limit);
    hide Inv, Oldest, Claim;
    if i !in ids {
      CountClaimed(db.traces[..i], d.traces[..i], ids);
    }
  }

  // Steps other than ticks never put anything into the queue ahead of an old trace.
  lemma OtherStepsKeepPlace(db: Db, s: Step, i: nat)
    requires Inv(db) && Enabled(db, s) && !s.Tick? && i < |db.traces| && db.traces[i].status == Queued
    ensures var d := Next(db, s);
            && i < |d.traces| && d.traces[i] == db.traces[i].(coalesced := d.traces[i].coalesced)
            && Older(d, i) <= Older(db, i)
  {
    var d := Next(db, s);
    NothingRequeued(db, s);
    hide Inv, CountQueued, Next;
    CountShrinks(db.traces[..i], d.traces[..i]);
  }

  // Only a tick changes a queued trace beyond its coalescing count, and nothing returns to the queue.
  lemma NothingRequeued(db: Db, s: Step)
    requires Inv(db) && Enabled(db, s)
    ensures var d := Next(db, s);
            && |db.traces| <= |d.traces|
            && (forall k | 0 <= k < |db.traces| :: d.traces[k].status == Queued ==> db.traces[k].status == Queued)
            && (!s.Tick? ==> forall k | 0 <= k < |db.traces| && db.traces[k].status == Queued ::
                  d.traces[k] == db.traces[k].(coalesced := d.traces[k].coalesced))
  {
    match s {
      case WakeFrom(input) => WakeKeepsStatuses(db, input);
      case DecideNext(j, now) => DecideKeepsStatuses(db, j, now);
      case Finish(j, run) => FinishLeavesQueue(db, j, run);
      case Tick(now, limit) => ClaimKeeps(db, now, limit); hide Claim;
      case Start(j) => hide SyncStart;
      case SyncTask(j) => hide SyncSucceeded;
      case SettleTask(j) => hide SyncFailed;
    }
    hide Inv, Wake, Decide, Finalize, Oldest, StageOk;
  }

  lemma FinishLeavesQueue(db: Db, j: nat, run: Run)
    requires Inv(db) && Enabled(db, Finish(j, run))
    ensures var d := Finalize(db, j, run);
            && |db.traces| == |d.traces| && db.traces[j].status == Running && d.traces[j].status != Queued
            && forall k | 0 <= k < |db.traces| && k != j :: d.traces[k] == db.traces[k]
  {
    assert StageOk(db, j);
    hide Inv;
  }

  // Old traces differ in their coalescing count only.
  ghost predicate Recounted(db: Db, d: Db) {
    |db.traces| <= |d.traces|
    && forall k | 0 <= k < |db.traces| :: d.traces[k] == db.traces[k].(coalesced := d.traces[k].coalesced)
  }

  lemma WakeKeepsStatuses(db: Db, input: WakeInput)
    ensures Recounted(db, Wake(db, input).0)
  {
    hide FirstKey, NewestUnit;
  }

  lemma SameTracesRecounted(db: Db, d: Db, e: Db)
    requires Recounted(db, d) && e.traces == d.traces
    ensures Recounted(db, e)
  {
  }

  lemma DecideKeepsStatuses(db: Db, i: nat, now: nat)
    requires Enabled(db, DecideNext(i, now))
    ensures Recounted(db, Decide(db, i, now))
  {
    var t, run := db.traces[i], db.stages[i].run;
    SameTracesRecounted(db, db, Advance(db, i, Decided(run, false)));
    if run.Ran? && run.outcome == Failed {
      RetryRecounts(db, now, i, t, run.errorCode);
      var r := DecideRetry(db, now, i, t.task, t.agent, run.errorCode, t.failureRetryAttempt);
      SameTracesRecounted(db, r.0, Advance(r.0, i, Decided(run, r.1.enqueued)));
    } else if run.Ran? && run.outcome == Succeeded && t.task.Some? && run.liveness.Some? {
      ContinuationRecounts(db, i, t, t.task.value, run.liveness.value);
      var c := DecideContinuation(db, i, t.task.value, t.agent, run.liveness.value, t.continuationAttempt);
      SameTracesRecounted(db, c.0, Advance(c.0, i, Decided(run, false)));
    }
    hide DecideRetry, DecideContinuation, Advance, Recounted;
  }

  lemma RetryRecounts(db: Db, now: nat, i: nat, t: Trace, errorCode: Option<string>)
    ensures Recounted(db, DecideRetry(db, now, i, t.task, t.agent, errorCode, t.failureRetryAttempt).0)
  {
    forall input ensures Recounted(db, Wake(db, input).0) {
      WakeKeepsStatuses(db, input);
    }
    hide Wake;
  }

  lemma ContinuationRecounts(db: Db, i: nat, t: Trace, task: TaskId, liveness: Liveness)
    ensures Recounted(db, DecideContinuation(db, i, task, t.agent, liveness, t.continuationAttempt).0)
  {
    forall input ensures Recounted(db, Wake(db, input).0) {
      WakeKeepsStatuses(db, input);
    }
    hide Wake;
  }

  function Ticks(steps: seq<Step>): nat {
    if steps == [] then 0 else Ticks(steps[..|steps| - 1]) + if steps[|steps| - 1].Tick? then 1 else 0
  }

  // While a trace stays queued, every tick takes a full batch of older traces out of the queue.
  lemma {:induction false} WaitingCostsBatches(db: Db, steps: seq<Step>, limit: nat, i: nat)
    requires Inv(db) && i < |db.traces| && db.traces[i].status == Queued
    requires forall s | s in steps && s.Tick? :: s.limit == limit && Eligible(db.traces[i], s.now)
    ensures var d := Execute(db, steps);
            && Inv(d) && i < |d.traces|
            && (d.traces[i].status == Queued ==>
                  && d.traces[i] == db.traces[i].(coalesced := d.traces[i].coalesced)
                  && Older(d, i) + limit * Ticks(steps) <= Older(db, i))
    decreases |steps|
  {
    hide Inv, CountQueued, Next, Older, Enabled;
    if steps != [] {
      var init, last := steps[..|steps| - 1], steps[|steps| - 1];
      assert last in steps;
      assert forall s | s in init :: s in steps;
      WaitingCostsBatches(db, init, limit, i);
      WaitingStep(Execute(db, init), last, limit, i);
      assert limit * Ticks(steps) == limit * Ticks(init) + if last.Tick? then limit else 0 by {
        hide Execute;
      }
    }
  }

  // One step of a run, whether or not it is enabled.
  lemma WaitingStep(d: Db, s: Step, limit: nat, i: nat)
    requires Inv(d) && i < |d.traces|
    requires s.Tick? ==> s.limit == limit && (d.traces[i].status == Queued ==> Eligible(d.traces[i], s.now))
    ensures var e := if Enabled(d, s) then Next(d, s) else d;
            && Inv(e) && i < |e.traces|
            && (e.traces[i].status == Queued ==>
                  && d.traces[i].status == Queued
                  && e.traces[i] == d.traces[i].(coalesced := e.traces[i].coalesced)
                  && Older(e, i) + (if s.Tick? then limit else 0) <= Older(d, i))
  {
    if s.Tick? { TickEnabled(d, s); }
    hide Inv, CountQueued, Next, Enabled, Older;
    if Enabled(d, s) {
      NextKeeps(d, s);
      PlaceAfter(d, s, i);
    }
  }

  lemma TickEnabled(d: Db, s: Step)
    requires Inv(d) && s.Tick?
    ensures Enabled(d, s) && Next(d, s) == Claim(d, s.now, s.limit)
  {
  }

  lemma PlaceAfter(d: Db, s: Step, i: nat)
    requires Inv(d) && Enabled(d, s) && i < |d.traces|
    requires s.Tick? && d.traces[i].status == Queued ==> Eligible(d.traces[i], s.now)
    ensures var e := Next(d, s);
            && i < |e.traces|
            && (e.traces[i].status == Queued ==>
                  && d.traces[i].status == Queued
                  && e.traces[i] == d.traces[i].(coalesced := e.traces[i].coalesced)
                  && Older(e, i) + (if s.Tick? then s.limit else 0) <= Older(d, i))
  {
    if d.traces[i].status == Queued {
      if s.Tick? {
        TickServesOldest(d, s.now, s.limit, i);
      } else {
        OtherStepsKeepPlace(d, s, i);
      }
    } else {
      NothingRequeued(d, s);
    }
  }

  /** A trace with k older queued traces is claimed within floor(k / limit) + 1 ticks once it is eligible. */
  lemma QueueIsFair(db: Db, steps: seq<Step>, limit: nat, i: nat)
    requires Inv(db) && i < |db.traces| && db.traces[i].status == Queued && limit > 0
    requires forall s | s in steps && s.Tick? :: s.limit == limit && Eligible(db.traces[i], s.now)
    requires Ticks(steps) >= Older(db, i) / limit + 1
    ensures var d := Execute(db, steps); i < |d.traces| && d.traces[i].status != Queued
  {
    WaitingCostsBatches(db, steps, limit, i);
    hide Inv, CountQueued, Execute;
    if Execute(db, steps).traces[i].status == Queued {
      BatchArithmetic(limit, Ticks(steps), Older(db, i));
    }
  }

  lemma BatchArithmetic(limit: nat, ticks: nat, older: nat)
    requires limit > 0 && ticks >= older / limit + 1
    ensures limit * ticks > older
  {
    assert older == limit * (older / limit) + older % limit;
    assert limit * ticks >= limit * (older / limit + 1);
  }

  // ---- mixed chains ------------------------------------------------------------

  lemma {:induction false} ExecuteAppend(db: Db, a: seq<Step>, b: seq<Step>)
    ensures Execute(db, a + b) == Execute(Execute(db, a), b)
    decreases |b|
  {
    if b == [] {
      assert a + b == a;
    } else {
      assert (a + b)[..|a + b| - 1] == a + b[..|b| - 1];
      ExecuteAppend(db, a, b[..|b| - 1]);
    }
  }

  // One active trace, the newest, for an open task that its agent owns.
  ghost predicate Front(db: Db, agent: AgentId, task: TaskId) {
    && |db.stages| == |db.traces| > 0
    && agent in db.agents && task in db.tasks
    && db.tasks[task].status == InProgress && db.tasks[task].assignee == Some(agent)
    && var n := |db.traces| - 1;
    && db.stages[n] == Idle && db.traces[n].status == Queued
    && db.traces[n].agent == agent && db.traces[n].task == Some(task)
    && (db.traces[n].failureRetryAttempt, db.traces[n].continuationAttempt) in {(0, 0), (1, 0), (0, 1)}
    && forall k | 0 <= k < n :: !Active(db.traces[k])
  }

  lemma OnlyOne(traces: seq<Trace>, now: nat)
    requires |traces| > 0 && Eligible(traces[|traces| - 1], now)
    requires forall k | 0 <= k < |traces| - 1 :: !Active(traces[k])
    ensures Oldest(traces, now, 1) == [|traces| - 1]
  {
    hide Oldest;
    var ids := Oldest(traces, now, 1);
    var n: nat := |traces| - 1;
    forall k | 0 <= k < |ids| ensures ids[k] == n {
      assert Eligible(traces[ids[k]], now);
    }
    assert |ids| == 1 ==> ids[0] == n;
    if n !in ids {
      assert false;
    }
  }

  // Run the newest trace: a retry ends with only a plan, anything else with a timeout.
  function RunOf(t: Trace): (r: Run)
    ensures r.Ran?
  {
    if t.failureRetryAttempt == 1 then Ran(Succeeded, None, Some(PlanOnly), None, Reply(false, false, false))
    else Ran(Failed, Some("timeout"), None, None, Reply(true, false, false))
  }

  function DueAt(t: Trace): nat {
    if t.scheduledAt.Some? then t.scheduledAt.value else 0
  }

  function Round(n: nat, run: Run, now: nat): seq<Step> {
    [Tick(now, 1)] + [Start(n)] + [Finish(n, run)] + [SyncTask(n)] + [DecideNext(n, now)]
  }

  lemma ExecuteSnoc(db: Db, steps: seq<Step>, d: Db, s: Step)
    requires Execute(db, steps) == d && Enabled(d, s)
    ensures Execute(db, steps + [s]) == Next(d, s)
  {
    hide Enabled, Next;
    assert (steps + [s])[..|steps|] == steps;
  }

  // In the middle of a round only the newest trace has changed; tasks and agents are as before.
  ghost predicate Mid(db: Db, d: Db, n: nat, status: TraceStatus, usage: Usage, stage: Stage) {
    && n < |db.traces| == |db.stages| == |d.traces| == |d.stages|
    && d.agents == db.agents && d.tasks == db.tasks && d.stages[n] == stage
    && d.traces == db.traces[n := db.traces[n].(status := status, usage := usage)]
  }

  ghost predicate OpenTask(db: Db, n: nat, task: TaskId) {
    n < |db.traces| && db.traces[n].task == Some(task) && task in db.tasks && db.tasks[task].status == InProgress
  }

  lemma MidClaim(db: Db, agent: AgentId, task: TaskId)
    requires Front(db, agent, task)
    ensures var n, s := |db.traces| - 1, Tick(DueAt(db.traces[|db.traces| - 1]), 1);
            Enabled(db, s) && Mid(db, Next(db, s), n, Running, db.traces[n].usage, Claimed)
  {
    hide Oldest;
    var n, now := |db.traces| - 1, DueAt(db.traces[|db.traces| - 1]);
    OnlyOne(db.traces, now);
    var d := Claim(db, now, 1);
    assert d.traces == db.traces[n := db.traces[n].(status := Running)];
  }

  lemma MidStart(db: Db, d: Db, n: nat, task: TaskId, usage: Usage)
    requires Mid(db, d, n, Running, usage, Claimed) && OpenTask(db, n, task)
    ensures Enabled(d, Start(n)) && Mid(db, Next(d, Start(n)), n, Running, usage, Started)
  {
  }

  lemma MidFinish(db: Db, d: Db, n: nat, run: Run, usage: Usage)
    requires Mid(db, d, n, Running, usage, Started) && run.Ran? && LegalRun(run)
    ensures Enabled(d, Finish(n, run)) && Mid(db, Next(d, Finish(n, run)), n, run.outcome, UsageOf(run), Finalized(run))
  {
    assert db.traces[n := db.traces[n].(status := Running, usage := usage)][n].(status := run.outcome, usage := UsageOf(run))
        == db.traces[n].(status := run.outcome, usage := UsageOf(run));
  }

  lemma MidSync(db: Db, d: Db, n: nat, run: Run, usage: Usage)
    requires run.Ran? && Mid(db, d, n, run.outcome, usage, Finalized(run))
    requires run.outcome == Failed || (run.outcome == Succeeded && run.liveness == Some(PlanOnly))
    ensures Enabled(d, SyncTask(n)) && Mid(db, Next(d, SyncTask(n)), n, run.outcome, usage, Synced(run))
  {
  }

  lemma MidDecide(db: Db, d: Db, n: nat, run: Run, usage: Usage, now: nat)
    requires run.Ran? && Mid(db, d, n, run.outcome, usage, Synced(run))
    ensures Enabled(d, DecideNext(n, now)) && Next(d, DecideNext(n, now)) == Decide(d, n, now)
  {
    hide Decide;
  }

  lemma RoundRuns(db: Db, agent: AgentId, task: TaskId) returns (d: Db)
    requires Front(db, agent, task)
    ensures var n := |db.traces| - 1;
            var run, now := RunOf(db.traces[n]), DueAt(db.traces[n]);
            && Mid(db, d, n, run.outcome, NO_USAGE, Synced(run))
            && Execute(db, Round(n, run, now)) == Decide(d, n, now)
  {
    var n: nat := |db.traces| - 1;
    var run, now, usage := RunOf(db.traces[n]), DueAt(db.traces[n]), db.traces[n].usage;
    assert OpenTask(db, n, task) && Execute(db, []) == db;
    assert LegalRun(run) && UsageOf(run) == NO_USAGE;
    assert run.outcome == Failed || (run.outcome == Succeeded && run.liveness == Some(PlanOnly));
    MidClaim(db, agent, task);
    hide Front, OpenTask, Enabled, Next, Execute, Mid, RunOf, DueAt, Decide;
    var s0, s1, s2, s3, s4 := Tick(now, 1), Start(n), Finish(n, run), SyncTask(n), DecideNext(n, now);
    ExecuteSnoc(db, [], db, s0);
    assert [] + [s0] == [s0];
    var d1 := Next(db, s0);
    MidStart(db, d1, n, task, usage);
    ExecuteSnoc(db, [s0], d1, s1);
    var d2 := Next(d1, s1);
    MidFinish(db, d2, n, run, usage);
    ExecuteSnoc(db, [s0] + [s1], d2, s2);
    var d3 := Next(d2, s2);
    MidSync(db, d3, n, run, NO_USAGE);
    ExecuteSnoc(db, [s0] + [s1] + [s2], d3, s3);
    d := Next(d3, s3);
    MidDecide(db, d, n, run, NO_USAGE, now);
    ExecuteSnoc(db, [s0] + [s1] + [s2] + [s3], d, s4);
  }

  // With nothing active, the decision queues the other kind of follow-up.
  lemma DecideQueues(d: Db, n: nat, now: nat, agent: AgentId, task: TaskId)
    requires n < |d.traces| == |d.stages| && agent in d.agents && task in d.tasks
    requires d.tasks[task].status == InProgress && d.tasks[task].assignee == Some(agent)
    requires d.stages[n].Synced? && d.stages[n].run.Ran?
    requires forall k | 0 <= k < |d.traces| :: !Active(d.traces[k])
    requires var t := d.traces[n];
             && t.agent == agent && t.task == Some(task)
             && var run := d.stages[n].run;
             || (run.outcome == Failed && run.errorCode == Some("timeout") && t.failureRetryAttempt == 0)
             || (run.outcome == Succeeded && run.liveness == Some(PlanOnly) && t.continuationAttempt == 0)
    ensures var e := Decide(d, n, now);
            && |e.traces| == |e.stages| == |d.traces| + 1 && e.agents == d.agents && e.tasks == d.tasks
            && e.traces[..|d.traces|] == d.traces && e.stages[|d.traces|] == Idle
            && var t := e.traces[|d.traces|];
            && t.status == Queued && t.agent == agent && t.task == Some(task) && t.retryOf == Some(n)
            && (t.failureRetryAttempt, t.continuationAttempt) == if d.stages[n].run.outcome == Failed then (1, 0) else (0, 1)
  {
    hide FirstKey, NewestUnit;
    forall input ensures FirstKey(d.traces, input) == |d.traces| && NewestUnit(d.traces, input) == |d.traces| {
    }
  }

  // What a round leaves for its decision.
  lemma MidIsQuiet(db: Db, d: Db, agent: AgentId, task: TaskId)
    requires Front(db, agent, task)
    requires var n := |db.traces| - 1; Mid(db, d, n, RunOf(db.traces[n]).outcome, NO_USAGE, Synced(RunOf(db.traces[n])))
    ensures agent in d.agents && task in d.tasks && d.tasks[task].status == InProgress && d.tasks[task].assignee == Some(agent)
    ensures |d.traces| == |d.stages| == |db.traces| && d.stages[|db.traces| - 1] == Synced(RunOf(db.traces[|db.traces| - 1]))
    ensures forall k | 0 <= k < |d.traces| :: !Active(d.traces[k])
    ensures forall k | 0 <= k < |d.traces| :: d.traces[k].retryOf == db.traces[k].retryOf
    ensures var t, run := d.traces[|db.traces| - 1], RunOf(db.traces[|db.traces| - 1]);
            && t.agent == agent && t.task == Some(task) && run.Ran?
            && ((run.outcome == Failed && run.errorCode == Some("timeout") && t.failureRetryAttempt == 0)
                || (run.outcome == Succeeded && run.liveness == Some(PlanOnly) && t.continuationAttempt == 0))
  {
  }

  /** Every such trace can be followed up, by the other kind of follow-up, and the task stays open. */
  lemma RoundExtends(db: Db, agent: AgentId, task: TaskId)
    requires Front(db, agent, task)
    ensures var n := |db.traces| - 1;
            var d := Execute(db, Round(n, RunOf(db.traces[n]), DueAt(db.traces[n])));
            && Front(d, agent, task) && |d.traces| == |db.traces| + 1
            && d.traces[|db.traces|].retryOf == Some(n)
            && forall k | 0 <= k < |db.traces| :: d.traces[k].retryOf == db.traces[k].retryOf
  {
    assert |db.traces| > 0;
    hide Execute, Decide, Round, Mid, Front, RunOf, DueAt;
    var n: nat := |db.traces| - 1;
    var now := DueAt(db.traces[n]);
    var d := RoundRuns(db, agent, task);
    MidIsQuiet(db, d, agent, task);
    DecideQueues(d, n, now, agent, task);
    var e := Decide(d, n, now);
    assert forall k | 0 <= k < |d.traces| :: e.traces[k] == e.traces[..|d.traces|][k];
    FrontAgain(e, agent, task);
  }

  lemma FrontAgain(e: Db, agent: AgentId, task: TaskId)
    requires |e.traces| == |e.stages| > 0 && agent in e.agents && task in e.tasks
    requires e.tasks[task].status == InProgress && e.tasks[task].assignee == Some(agent)
    requires forall k | 0 <= k < |e.traces| - 1 :: !Active(e.traces[k])
    requires var t := e.traces[|e.traces| - 1];
             && e.stages[|e.traces| - 1] == Idle && t.status == Queued && t.agent == agent && t.task == Some(task)
             && ((t.failureRetryAttempt == 1 && t.continuationAttempt == 0) || (t.failureRetryAttempt == 0 && t.continuationAttempt == 1))
    ensures Front(e, agent, task)
  {
  }

  // A database with one agent and one task it works on.
  function NewTask(agent: AgentId, task: TaskId): Db {
    Empty({agent}, map[task := Task(InProgress, Some(agent), false, None, [])])
  }

  // These steps lead to a chain of n follow-ups, each of the trace before it, with an open task.
  ghost predicate ChainRun(db: Db, steps: seq<Step>, agent: AgentId, task: TaskId, n: nat) {
    var d := Execute(db, steps);
    && Front(d, agent, task) && |d.traces| == n + 1
    && forall k | 0 < k <= n :: d.traces[k].retryOf == Some(k - 1)
  }

  /** Follow-up chains have no common bound: alternating kinds, a chain of any length can be reached. */
  lemma {:induction false} MixedChainsAreUnbounded(agent: AgentId, task: TaskId, n: nat)
    ensures exists steps :: ChainRun(NewTask(agent, task), steps, agent, task, n)
  {
    var db := NewTask(agent, task);
    if n == 0 {
      FirstFront(agent, task);
    } else {
      MixedChainsAreUnbounded(agent, task, n - 1);
      var steps: seq<Step> :| ChainRun(db, steps, agent, task, n - 1);
      LongerChain(db, steps, agent, task, n - 1, n);
    }
  }

  lemma FirstFront(agent: AgentId, task: TaskId)
    ensures exists steps :: ChainRun(NewTask(agent, task), steps, agent, task, 0)
  {
    var db := NewTask(agent, task);
    var wake := WakeFrom(WakeInput(agent, Some(task), None, None, 0, 0, None, 0));
    assert Execute(db, []) == db && Enabled(db, wake);
    ExecuteSnoc(db, [], db, wake);
    assert [] + [wake] == [wake];
    hide Execute;
    assert ChainRun(db, [wake], agent, task, 0);
  }

  lemma LongerChain(db: Db, steps: seq<Step>, agent: AgentId, task: TaskId, n: nat, m: nat)
    requires ChainRun(db, steps, agent, task, n) && m == n + 1
    ensures exists more :: ChainRun(db, more, agent, task, m)
  {
    hide Execute, Round, Front;
    var d := Execute(db, steps);
    RoundExtends(d, agent, task);
    var round := Round(n, RunOf(d.traces[n]), DueAt(d.traces[n]));
    ExecuteAppend(db, steps, round);
    assert ChainRun(db, steps + round, agent, task, m);
  }
}
