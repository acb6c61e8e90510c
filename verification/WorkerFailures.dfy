/** Who learns how a trace ended: what the task's card shows and who follows up, over whole runs of the worker. */
module WorkerFailures {
  import opened Text
  import opened RetryPolicy
  import opened WorkerState
  import opened WorkerRuns
  import opened WorkerLaws
  import opened WorkerQueue

  const BAD: set<TraceStatus> := {Failed, TimedOut, Cancelled}

  // A successful run that leaves the card alone: a nudge follows, or there is nothing to show.
  predicate Quiet(run: Run)
    requires run.Ran?
  {
    run.reply.blank || (run.liveness.Some? && run.liveness.value != Normal)
  }

  // How far a trace must have come for its card to show it.
  predicate Shows(s: Stage, failure: bool) {
    if failure then s.Over? && s.run.Ran? && s.run.outcome in BAD
    else (s.Synced? || s.Decided? || s.Over?) && s.run.Ran? && s.run.outcome == Succeeded && !Quiet(s.run)
  }

  // ---- what every run keeps ----------------------------------------------------

  // One step of a single execution; runs never change.
  predicate Follows(a: Stage, b: Stage) {
    || a == b
    || (a.Idle? && b.Claimed?)
    || (a.Claimed? && (b.Started? || (b.Over? && !b.run.Ran?)))
    || (a.Started? && ((b.Over? && !b.run.Ran?) || (b.Finalized? && b.run.Ran?)))
    || (a.Finalized? && b.Synced? && b.run == a.run)
    || (a.Synced? && b.Decided? && b.run == a.run)
    || (a.Decided? && b.Over? && b.run == a.run)
  }

  predicate RanToDecision(s: Stage) {
    Decisive(s) && s.run.Ran?
  }

  // No card speaks of a trace that does not exist yet.
  ghost predicate Unmentioned(tasks: map<TaskId, Task>) {
    forall t: TaskId, i: nat, f: bool | t in tasks :: AgentResult(i, f) !in tasks[t].blocks
  }

  ghost predicate BlockOk(db: Db, t: TaskId, i: nat, f: bool) {
    i < |db.traces| && i < |db.stages| && db.traces[i].task == Some(t) && Shows(db.stages[i], f)
  }

  ghost predicate BlocksOk(db: Db) {
    forall t: TaskId, i: nat, f: bool | t in db.tasks && AgentResult(i, f) in db.tasks[t].blocks :: BlockOk(db, t, i, f)
  }

  ghost predicate ParentsRan(db: Db) {
    forall j | 0 <= j < |db.traces| && db.traces[j].retryOf.Some? ::
      db.traces[j].retryOf.value < |db.stages| && RanToDecision(db.stages[db.traces[j].retryOf.value])
  }

  ghost predicate KnownAgents(db: Db) {
    forall j | 0 <= j < |db.traces| :: db.traces[j].agent in db.agents
  }

  ghost predicate SuccessShown(db: Db) {
    forall j | 0 <= j < |db.traces| && j < |db.stages| && Shows(db.stages[j], false)
            && db.traces[j].task.Some? && db.traces[j].task.value in db.tasks ::
      AgentResult(j, false) in db.tasks[db.traces[j].task.value].blocks
  }

  ghost predicate Books(db: Db) {
    BlocksOk(db) && ParentsRan(db) && KnownAgents(db) && SuccessShown(db)
  }

  lemma WithBlockIs(blocks: seq<Block>, b: Block, x: Block)
    requires x.AgentResult?
    ensures x in WithBlock(blocks, b) <==> x in blocks || x == b
  {
    hide BlankText;
    WithBlockKeepsResults(blocks, b);
  }

  // The rows of the table keep who they are for; new rows are queued for a known agent.
  ghost predicate Grown(db: Db, d: Db, parent: Option<nat>) {
    && d.agents == db.agents && |db.traces| == |db.stages| <= |d.traces| == |d.stages|
    && (forall k | 0 <= k < |db.traces| ::
          && d.traces[k].agent == db.traces[k].agent && d.traces[k].task == db.traces[k].task
          && d.traces[k].retryOf == db.traces[k].retryOf && Follows(db.stages[k], d.stages[k]))
    && (forall k | |db.traces| <= k < |d.traces| ::
          d.traces[k].agent in d.agents && d.stages[k] == Idle && d.traces[k].retryOf in {None, parent})
  }

  lemma WakeGrown(db: Db, input: WakeInput)
    requires |db.stages| == |db.traces|
    ensures Grown(db, Wake(db, input).0, input.retryOf) && Wake(db, input).0.stages[..|db.stages|] == db.stages
  {
    hide FirstKey, NewestUnit;
  }

  // A decision: the table as it is or after a wake, and the stage moved on.
  lemma DecisionGrown(db: Db, c: Db, i: nat, stage: Stage, input: WakeInput)
    requires i < |db.traces| == |db.stages| && db.stages[i].Synced? && stage.Decided? && stage.run == db.stages[i].run
    requires c == db || c == Wake(db, input).0
    requires input.retryOf == Some(i)
    ensures Grown(db, Advance(c, i, stage), Some(i)) && Advance(c, i, stage).stages[i] == stage
  {
    WakeGrown(db, input);
    hide Wake;
  }

  // The trace a decision may follow up.
  function ParentOf(s: Step): Option<nat> {
    if s.DecideNext? then Some(s.i) else None
  }

  lemma DecideGrown(db: Db, i: nat, now: nat)
    requires Enabled(db, DecideNext(i, now)) && db.stages[i].run.Ran?
    ensures Grown(db, Decide(db, i, now), Some(i))
    ensures Decide(db, i, now).stages[i].Decided? && Decide(db, i, now).stages[i].run == db.stages[i].run
  {
    var t, run := db.traces[i], db.stages[i].run;
    hide Wake, DecideRetry, DecideContinuation, Advance, Grown;
    var retry := RetryInput(t, i, now);
    if run.outcome == Succeeded && t.task.Some? && run.liveness.Some? && run.liveness.value != Normal {
      ContinuationIsWake(db, i, t, t.task.value, run.liveness.value);
      DecisionGrown(db, DecideContinuation(db, i, t.task.value, t.agent, run.liveness.value, t.continuationAttempt).0, i,
        Decided(run, false),
        WakeInput(t.agent, t.task, Some(ContinuationKey(t.task.value, i, run.liveness.value, t.continuationAttempt + 1)),
                  None, 0, t.continuationAttempt + 1, Some(i), 0));
    } else if run.outcome == Failed {
      var r := DecideRetry(db, now, i, t.task, t.agent, run.errorCode, t.failureRetryAttempt);
      RetryIsWake(db, i, t, now, run.errorCode);
      DecisionGrown(db, r.0, i, Decided(run, r.1.enqueued), retry);
    } else {
      DecisionGrown(db, db, i, Decided(run, false), retry);
    }
  }

  // The wake a retry decision makes.
  function RetryInput(t: Trace, i: nat, now: nat): WakeInput {
    var delay := if t.failureRetryAttempt < 3 then RETRY_DELAYS_MS[t.failureRetryAttempt] else 0;
    WakeInput(t.agent, t.task, Some(RetryKey(i, t.failureRetryAttempt + 1)), Some(now + delay),
              t.failureRetryAttempt + 1, 0, Some(i), delay)
  }

  lemma TickGrown(db: Db, now: nat, limit: nat)
    requires Inv(db)
    ensures Grown(db, Claim(db, now, limit), None)
  {
    ClaimKeeps(db, now, limit);
    var ids, d := Oldest(db.traces, now, limit), Claim(db, now, limit);
    assert d.agents == db.agents && BatchClaimed(db, d, ids);
    hide Oldest, Claim, Follows, BatchClaimed;
    assert |db.traces| == |db.stages| == |d.traces| == |d.stages| by { BatchSizes(db, d, ids); hide Inv; }
    forall k | 0 <= k < |db.traces|
      ensures d.traces[k] == db.traces[k].(status := d.traces[k].status) && Follows(db.stages[k], d.stages[k])
    {
      assert StageOk(db, k);
      hide Inv;
      BatchRow(db, d, ids, k);
    }
  }

  lemma BatchSizes(db: Db, d: Db, ids: seq<nat>)
    requires BatchClaimed(db, d, ids)
    ensures |db.traces| == |db.stages| == |d.traces| == |d.stages|
  {
  }

  lemma BatchRow(db: Db, d: Db, ids: seq<nat>, k: nat)
    requires BatchClaimed(db, d, ids) && k < |db.traces| == |db.stages| && StageOk(db, k)
    ensures k < |d.traces| == |d.stages|
    ensures d.traces[k] == db.traces[k].(status := d.traces[k].status) && Follows(db.stages[k], d.stages[k])
  {
  }

  // A step that moves one stage on and adds nothing.
  lemma MoveGrown(db: Db, d: Db, i: nat)
    requires i < |db.traces| == |db.stages| == |d.traces| == |d.stages| && d.agents == db.agents && d.stages == db.stages[i := d.stages[i]]
    requires d.traces == db.traces[i := db.traces[i].(status := d.traces[i].status, usage := d.traces[i].usage)]
    requires Follows(db.stages[i], d.stages[i])
    ensures Grown(db, d, None)
  {
    hide Follows;
    assert forall k | 0 <= k < |db.traces| && k != i :: Follows(db.stages[k], d.stages[k]) by {
      forall k | 0 <= k < |db.traces| && k != i ensures Follows(db.stages[k], d.stages[k]) {
        StaysFollows(db.stages[k]);
      }
    }
  }

  lemma StaysFollows(s: Stage)
    ensures Follows(s, s)
  {
  }

  lemma StepGrows(db: Db, s: Step)
    requires Inv(db) && Enabled(db, s)
    ensures Grown(db, Next(db, s), ParentOf(s))
  {
    if s.Tick? {
      TickGrown(db, s.now, s.limit);
    } else if s.DecideNext? {
      assert StageOk(db, s.i);
      DecideGrown(db, s.i, s.now);
      hide Decide, Inv, Grown;
    } else if s.WakeFrom? {
      WakeGrown(db, s.input);
      hide Wake, Inv, Grown;
    } else {
      StageGrows(db, s);
      hide Next, Inv, Grown;
    }
  }

  lemma StageGrows(db: Db, s: Step)
    requires Inv(db) && Enabled(db, s) && !s.WakeFrom? && !s.Tick? && !s.DecideNext?
    ensures Grown(db, Next(db, s), None)
  {
    hide Inv, Grown;
    match s {
      case SyncTask(i) => hide SyncSucceeded;
      case SettleTask(i) => hide SyncFailed;
      case Start(i) => hide SyncStart;
      case Finish(i, run) =>
      case DecideNext(_, _) => assert false;
    }
    MoveGrown(db, Next(db, s), s.i);
  }

  // What a step adds to a card.
  lemma CardGains(db: Db, s: Step, t: TaskId, i: nat, f: bool)
    requires Enabled(db, s) && t in Next(db, s).tasks && AgentResult(i, f) in Next(db, s).tasks[t].blocks
    ensures t in db.tasks
    ensures || AgentResult(i, f) in db.tasks[t].blocks
            || (i < |db.traces| && db.traces[i].task == Some(t) && s == (if f then SettleTask(i) else SyncTask(i))
                && i < |Next(db, s).stages| && Shows(Next(db, s).stages[i], f))
  {
    hide WithBlock, Wake, Oldest;
    match s {
      case WakeFrom(input) => WakeKeepsTasks(db, input);
      case DecideNext(k, now) => DecideKeepsTasks(db, k, now); hide Decide;
      case SyncTask(k) =>
        if t in db.tasks { WithBlockIs(db.tasks[t].blocks, AgentResult(k, false), AgentResult(i, f)); }
      case SettleTask(k) =>
        if t in db.tasks { WithBlockIs(db.tasks[t].blocks, AgentResult(k, true), AgentResult(i, f)); }
      case _ =>
    }
  }

  lemma FollowsKeeps(a: Stage, b: Stage, f: bool)
    requires Follows(a, b)
    ensures Shows(a, f) ==> Shows(b, f)
    ensures RanToDecision(a) ==> RanToDecision(b) && b.run == a.run
    ensures Decisive(a) ==> Settles(a, b)
  {
  }

  lemma BlockStays(db: Db, s: Step, t: TaskId, i: nat, f: bool)
    requires Inv(db) && Enabled(db, s) && BlocksOk(db)
    requires t in Next(db, s).tasks && AgentResult(i, f) in Next(db, s).tasks[t].blocks
    ensures BlockOk(Next(db, s), t, i, f)
  {
    CardGains(db, s, t, i, f);
    assert AgentResult(i, f) in db.tasks[t].blocks ==> BlockOk(db, t, i, f);
    StepGrows(db, s);
    hide Inv, Next, Enabled, BlocksOk;
    var d := Next(db, s);
    if BlockOk(db, t, i, f) {
      RowKeepsBlock(db, d, ParentOf(s), t, i, f);
    } else {
      hide Shows;
    }
  }

  lemma RowKeepsBlock(db: Db, d: Db, parent: Option<nat>, t: TaskId, i: nat, f: bool)
    requires Grown(db, d, parent) && BlockOk(db, t, i, f)
    ensures BlockOk(d, t, i, f)
  {
    assert Follows(db.stages[i], d.stages[i]);
    hide Follows, Shows;
    FollowsKeeps(db.stages[i], d.stages[i], f);
  }

  lemma BlocksStay(db: Db, s: Step)
    requires Inv(db) && Enabled(db, s) && BlocksOk(db)
    ensures BlocksOk(Next(db, s))
  {
    var d := Next(db, s);
    hide Inv, Next, Enabled, BlockOk;
    forall t: TaskId, i: nat, f: bool | t in d.tasks && AgentResult(i, f) in d.tasks[t].blocks ensures BlockOk(d, t, i, f) {
      hide BlocksOk;
      BlockStays(db, s, t, i, f);
    }
  }

  lemma ParentsStay(db: Db, s: Step)
    requires Inv(db) && Enabled(db, s) && ParentsRan(db) && KnownAgents(db)
    ensures ParentsRan(Next(db, s)) && KnownAgents(Next(db, s))
  {
    var d := Next(db, s);
    StepGrows(db, s);
    if s.DecideNext? {
      DecisionIsRun(db, s.i, s.now);
    }
    hide Inv, Next, Enabled, Follows, RanToDecision;
    forall j | 0 <= j < |d.traces| && d.traces[j].retryOf.Some?
      ensures d.traces[j].retryOf.value < |d.stages| && RanToDecision(d.stages[d.traces[j].retryOf.value])
    {
      if j < |db.traces| {
        var p := db.traces[j].retryOf.value;
        FollowsKeeps(db.stages[p], d.stages[p], false);
      }
    }
  }

  lemma DecisionIsRun(db: Db, i: nat, now: nat)
    requires Inv(db) && Enabled(db, DecideNext(i, now))
    ensures db.stages[i].run.Ran?
    ensures var d := Next(db, DecideNext(i, now)); i < |d.stages| && RanToDecision(d.stages[i]) && d.stages[i].Decided?
  {
    assert StageOk(db, i);
    hide Inv, Decide;
    DecideGrown(db, i, now);
  }

  // Only its own sync makes a trace synced.
  lemma SyncedBySync(db: Db, s: Step, j: nat)
    requires Inv(db) && Enabled(db, s) && j < |db.stages| && j < |Next(db, s).stages|
    requires !Shows(db.stages[j], false) && Shows(Next(db, s).stages[j], false)
    ensures s == SyncTask(j)
  {
    StepGrows(db, s);
    var a, b := db.stages[j], Next(db, s).stages[j];
    assert Follows(a, b);
    assert a.Finalized? && b.Synced?;
    if s.DecideNext? || s.WakeFrom? {
      assert |db.stages| == |db.traces|;
      OthersStay(db, s, j);
    }
    hide Inv, Decide, Wake, Oldest, SyncSucceeded, SyncFailed, SyncStart;
  }

  lemma OthersStay(db: Db, s: Step, j: nat)
    requires Enabled(db, s) && j < |db.stages| && (s.WakeFrom? || (s.DecideNext? && s.i != j))
    ensures Next(db, s).stages[j] == db.stages[j]
  {
    if s.WakeFrom? {
      WakeGrown(db, s.input);
      hide Wake;
      assert db.stages[j] == Wake(db, s.input).0.stages[..|db.stages|][j];
    } else {
      DecideGrows(db, s.i, s.now);
      hide Decide;
    }
  }

  // A sync that shows a success puts it on the card.
  lemma SyncShows(db: Db, j: nat)
    requires Enabled(db, SyncTask(j)) && Shows(Next(db, SyncTask(j)).stages[j], false)
    requires db.traces[j].task.Some? && db.traces[j].task.value in db.tasks
    ensures AgentResult(j, false) in Next(db, SyncTask(j)).tasks[db.traces[j].task.value].blocks
  {
    WithBlockKeepsResults(db.tasks[db.traces[j].task.value].blocks, AgentResult(j, false));
    hide WithBlock;
  }

  lemma SuccessesStay(db: Db, s: Step)
    requires Inv(db) && Enabled(db, s) && SuccessShown(db)
    ensures SuccessShown(Next(db, s))
  {
    var d := Next(db, s);
    StepGrows(db, s);
    StepsMoveTasksForward(db, s);
    hide Inv, Next, Enabled;
    forall j | 0 <= j < |d.traces| && j < |d.stages| && Shows(d.stages[j], false)
               && d.traces[j].task.Some? && d.traces[j].task.value in d.tasks
      ensures AgentResult(j, false) in d.tasks[d.traces[j].task.value].blocks
    {
      if Shows(db.stages[j], false) {
        assert TaskMovesForward(db.tasks[db.traces[j].task.value], d.tasks[db.traces[j].task.value]);
      } else {
        SyncedBySync(db, s, j);
        SyncShows(db, j);
      }
    }
  }

  lemma {:induction false} RunsKeepBooks(agents: set<AgentId>, tasks: map<TaskId, Task>, steps: seq<Step>)
    requires Unmentioned(tasks)
    ensures Inv(Execute(Empty(agents, tasks), steps)) && Books(Execute(Empty(agents, tasks), steps))
  {
    ExecuteKeeps(agents, tasks, steps);
    if steps != [] {
      var init, last := steps[..|steps| - 1], steps[|steps| - 1];
      RunsKeepBooks(agents, tasks, init);
      var d := Execute(Empty(agents, tasks), init);
      hide Inv, BlocksOk, ParentsRan, KnownAgents, SuccessShown, Next, Enabled;
      if Enabled(d, last) {
        BlocksStay(d, last);
        ParentsStay(d, last);
        SuccessesStay(d, last);
      }
    } else {
      hide Inv;
    }
  }

  // ---- from a moment of a run to its end ---------------------------------------

  ghost predicate Told(db: Db, i: nat, task: TaskId) {
    || (exists j :: 0 <= j < |db.traces| && db.traces[j].retryOf == Some(i))
    || (task in db.tasks && AgentResult(i, true) in db.tasks[task].blocks)
  }

  // A later table of the same run.
  ghost predicate Later(db: Db, d: Db) {
    && |db.traces| == |db.stages| <= |d.traces| == |d.stages|
    && (forall k | 0 <= k < |db.traces| ::
          && d.traces[k].agent == db.traces[k].agent && d.traces[k].task == db.traces[k].task
          && d.traces[k].retryOf == db.traces[k].retryOf
          && (Decisive(db.stages[k]) ==> Settles(db.stages[k], d.stages[k])))
    && (forall k | |db.traces| <= k < |d.traces| && d.traces[k].retryOf.Some? && d.traces[k].retryOf.value < |db.stages| ::
          !Decisive(db.stages[d.traces[k].retryOf.value]))
  }

  // A decided execution at most settles.
  predicate Settles(a: Stage, b: Stage) {
    Decisive(a) && (a == b || (a.Decided? && b == Over(a.run)))
  }

  lemma {:induction false} RunsGoOn(db: Db, steps: seq<Step>)
    requires Inv(db)
    ensures Inv(Execute(db, steps)) && Later(db, Execute(db, steps))
    decreases |steps|
  {
    if steps == [] {
      InvAligned(db);
      hide Inv;
    } else {
      var d := Execute(db, steps[..|steps| - 1]);
      RunsGoOn(db, steps[..|steps| - 1]);
      hide Inv, Next, Enabled;
      if Enabled(d, steps[|steps| - 1]) {
        NextKeeps(d, steps[|steps| - 1]);
        StepGrows(d, steps[|steps| - 1]);
        ParentIsSynced(d, steps[|steps| - 1]);
        GrownIsLater(db, d, Next(d, steps[|steps| - 1]), ParentOf(steps[|steps| - 1]));
      }
    }
  }

  lemma InvAligned(db: Db)
    requires Inv(db)
    ensures |db.traces| == |db.stages|
  {
  }

  lemma GrownIsLater(db: Db, c: Db, d: Db, parent: Option<nat>)
    requires Later(db, c) && Grown(c, d, parent)
    requires parent.Some? ==> parent.value < |c.stages| && c.stages[parent.value].Synced?
    ensures Later(db, d)
  {
    hide Follows;
    forall k | 0 <= k < |db.traces| && Decisive(db.stages[k]) ensures Settles(db.stages[k], d.stages[k]) {
      FollowsKeeps(c.stages[k], d.stages[k], false);
    }
    forall k | |db.traces| <= k < |d.traces| && d.traces[k].retryOf.Some? && d.traces[k].retryOf.value < |db.stages|
      ensures !Decisive(db.stages[d.traces[k].retryOf.value])
    {
      var p := d.traces[k].retryOf.value;
      assert Decisive(db.stages[p]) ==> Settles(db.stages[p], c.stages[p]);
    }
  }

  lemma ParentIsSynced(db: Db, s: Step)
    requires Enabled(db, s)
    ensures ParentOf(s).Some? ==> ParentOf(s).value < |db.stages| && db.stages[ParentOf(s).value].Synced?
  {
  }

  lemma ToldStays(db: Db, steps: seq<Step>, i: nat, task: TaskId)
    requires Inv(db) && Told(db, i, task)
    ensures Told(Execute(db, steps), i, task)
  {
    RunsGoOn(db, steps);
    RunsMoveTasksForward(db, steps);
    var d := Execute(db, steps);
    hide Inv, Execute;
    if j :| 0 <= j < |db.traces| && db.traces[j].retryOf == Some(i) {
      assert d.traces[j].retryOf == Some(i);
    } else {
      assert TaskMovesForward(db.tasks[task], d.tasks[task]);
    }
  }

  // ---- who learns of a failure -------------------------------------------------

  // The step s ends trace i badly, while its task exists and is not done.
  ghost predicate EndsBadly(db: Db, s: Step, i: nat, task: TaskId) {
    && Enabled(db, s) && i < |db.traces| && db.traces[i].task == Some(task)
    && task in db.tasks && db.tasks[task].status != Done
    && (s == SettleTask(i) || (s.Finish? && s.i == i && !s.run.Ran?))
    && FinalStatus(EndedRun(db, s, i)) in BAD
  }

  ghost function EndedRun(db: Db, s: Step, i: nat): Run
    requires Enabled(db, s) && (s == SettleTask(i) || s.Finish?)
  {
    if s.Finish? then s.run else db.stages[i].run
  }

  lemma EndingTells(db: Db, s: Step, i: nat, task: TaskId)
    requires Inv(db) && EndsBadly(db, s, i, task) && SettledOk(db, i) && EndedRun(db, s, i).Ran?
    ensures Told(Next(db, s), i, task)
  {
    assert StageOk(db, i);
    hide Inv, WithBlock;
    WithBlockKeepsResults(db.tasks[task].blocks, AgentResult(i, true));
    var d := Next(db, s);
    if db.stages[i].enqueued {
      var j :| 0 <= j < |db.traces| && db.traces[j].retryOf == Some(i);
      assert d.traces[j].retryOf == Some(i);
    } else {
      assert AgentResult(i, true) in d.tasks[task].blocks;
    }
  }

  lemma EndingIsOver(db: Db, s: Step, i: nat, task: TaskId)
    requires EndsBadly(db, s, i, task)
    ensures var d := Next(db, s); i < |d.traces| && i < |d.stages| && d.stages[i] == Over(EndedRun(db, s, i))
  {
    hide WithBlock;
  }

  lemma NobodyTold(db: Db, i: nat, task: TaskId)
    requires Books(db) && i < |db.stages| && db.stages[i].Over? && !db.stages[i].run.Ran?
    ensures !Told(db, i, task)
  {
    hide KnownAgents, SuccessShown;
  }

  /**
   In every run, take a trace that ends badly while its task exists and is not done. Whatever happens next, a
   follow-up is or was queued behind it or its card shows the failure exactly if the adapter was called: an unknown
   agent or adapter and a crash of the dispatcher are never told to anyone.
   */
  lemma ToldIffRan(agents: set<AgentId>, tasks: map<TaskId, Task>, before: seq<Step>, s: Step, after: seq<Step>, i: nat, task: TaskId)
    requires Unmentioned(tasks) && EndsBadly(Execute(Empty(agents, tasks), before), s, i, task)
    ensures var db := Execute(Empty(agents, tasks), before);
            var d := Execute(Empty(agents, tasks), before + [s] + after);
            && i < |d.stages| && d.stages[i] == Over(EndedRun(db, s, i))
            && (Told(d, i, task) <==> EndedRun(db, s, i).Ran?)
  {
    var start := Empty(agents, tasks);
    var db := Execute(start, before);
    var steps := before + [s];
    assert Enabled(db, s);
    ExecuteSnoc(start, before, db, s);
    ExecuteAppend(start, steps, after);
    RunsKeepBooks(agents, tasks, before);
    RunsKeepBooks(agents, tasks, steps);
    RunsKeepBooks(agents, tasks, steps + after);
    RunsKeepSettled(agents, tasks, before);
    EndingIsOver(db, s, i, task);
    var c, d := Next(db, s), Execute(start, steps + after);
    RunsGoOn(c, after);
    if EndedRun(db, s, i).Ran? {
      assert SettledOk(db, i);
      EndingTells(db, s, i, task);
      ToldStays(c, after, i, task);
    } else {
      hide Inv, Execute, Next, Books, Told, SettledOk;
      NobodyTold(d, i, task);
    }
  }

  /** In every run a card shows a success of its trace exactly once that synced, unless the reply was blank or a nudge follows. */
  lemma SuccessIsShownIff(agents: set<AgentId>, tasks: map<TaskId, Task>, steps: seq<Step>, i: nat, task: TaskId)
    requires Unmentioned(tasks)
    requires var d := Execute(Empty(agents, tasks), steps);
             i < |d.traces| && i < |d.stages| && task in d.tasks && d.traces[i].task == Some(task)
    ensures var d := Execute(Empty(agents, tasks), steps);
            AgentResult(i, false) in d.tasks[task].blocks <==> Shows(d.stages[i], false)
  {
    RunsKeepBooks(agents, tasks, steps);
    var d := Execute(Empty(agents, tasks), steps);
    hide Inv, Execute, Books, Shows;
    BooksShow(d, i, task);
  }

  lemma BooksShow(d: Db, i: nat, task: TaskId)
    requires Books(d) && i < |d.traces| && i < |d.stages| && task in d.tasks && d.traces[i].task == Some(task)
    ensures AgentResult(i, false) in d.tasks[task].blocks <==> Shows(d.stages[i], false)
  {
    hide Shows, ParentsRan, KnownAgents;
    assert AgentResult(i, false) in d.tasks[task].blocks ==> BlockOk(d, task, i, false);
  }

  // ---- a retry that finds its work unit busy -----------------------------------

  // Trace i failed in a way worth retrying and its retry is about to be decided.
  ghost predicate RetryDue(db: Db, i: nat, now: nat, task: TaskId) {
    && Enabled(db, DecideNext(i, now)) && db.traces[i].task == Some(task) && db.traces[i].failureRetryAttempt < 3
    && var run := db.stages[i].run; run.Ran? && run.outcome == Failed && IsTransientError(run.errorCode)
  }

  // The agent already has an active trace for the task, or one that carries the retry's key.
  ghost predicate UnitBusy(db: Db, i: nat)
    requires i < |db.traces|
  {
    var t := db.traces[i];
    exists j :: 0 <= j < |db.traces| && Active(db.traces[j]) && db.traces[j].agent == t.agent
                && (db.traces[j].task == t.task || db.traces[j].key == Some(RetryKey(i, t.failureRetryAttempt + 1)))
  }

  lemma RetryWakes(db: Db, i: nat, now: nat)
    requires i < |db.traces| && db.traces[i].agent in db.agents
    ensures var w := Wake(db, RetryInput(db.traces[i], i, now));
            && w.1.Woken? && (w.1.coalesced <==> UnitBusy(db, i))
            && (UnitBusy(db, i) ==> |w.0.traces| == |db.traces|)
  {
    var input := RetryInput(db.traces[i], i, now);
    if UnitBusy(db, i) {
      var j :| 0 <= j < |db.traces| && Active(db.traces[j]) && db.traces[j].agent == input.agent
               && (db.traces[j].task == input.task || db.traces[j].key == input.key);
      assert SameKey(db.traces[j], input) || SameUnit(db.traces[j], input);
    }
    hide FirstKey, NewestUnit, RetryInput;
  }

  lemma RetryDecision(db: Db, i: nat, now: nat, task: TaskId)
    requires RetryDue(db, i, now, task) && db.traces[i].agent in db.agents
    ensures var d := Next(db, DecideNext(i, now));
            && |d.stages| == |d.traces| && i < |d.traces|
            && d.stages[i] == Decided(db.stages[i].run, !UnitBusy(db, i))
            && (UnitBusy(db, i) ==> |d.traces| == |db.traces|)
  {
    var t, run := db.traces[i], db.stages[i].run;
    RetryWakes(db, i, now);
    WakeGrown(db, RetryInput(t, i, now));
    assert t.failureRetryAttempt in {0, 1, 2};
    var r := DecideRetry(db, now, i, t.task, t.agent, run.errorCode, t.failureRetryAttempt);
    var w := Wake(db, RetryInput(t, i, now));
    assert r == (w.0, AfterWake(w.1)) by { hide Wake, UnitBusy; }
    hide Wake, UnitBusy, DecideRetry, RetryInput;
  }

  // Once decided without a follow-up, a trace has none.
  lemma Childless(db: Db, i: nat, now: nat, task: TaskId)
    requires Inv(db) && RetryDue(db, i, now, task) && db.traces[i].agent in db.agents && UnitBusy(db, i)
    ensures forall j | 0 <= j < |Next(db, DecideNext(i, now)).traces| :: Next(db, DecideNext(i, now)).traces[j].retryOf != Some(i)
  {
    var d := Next(db, DecideNext(i, now));
    RetryDecision(db, i, now, task);
    StepGrows(db, DecideNext(i, now));
    forall j | 0 <= j < |d.traces| ensures d.traces[j].retryOf != Some(i) {
      assert LineageOk(db, j);
      assert !Decisive(db.stages[i]);
      hide Inv, Next;
    }
  }

  // Settling after the decision: the retry was queued, or the card is told.
  lemma SettleParks(db: Db, i: nat, task: TaskId, run: Run, enqueued: bool)
    requires Enabled(db, SettleTask(i)) && db.stages[i] == Decided(run, enqueued) && run.Ran? && run.outcome == Failed
    requires db.traces[i].task == Some(task) && task in db.tasks && db.tasks[task].status != Done
    ensures var d := Next(db, SettleTask(i));
            && d.traces == db.traces && (enqueued ==> d.tasks == db.tasks)
            && (!enqueued ==> task in d.tasks && d.tasks[task].status == Error && AgentResult(i, true) in d.tasks[task].blocks)
  {
    WithBlockKeepsResults(db.tasks[task].blocks, AgentResult(i, true));
    hide WithBlock;
  }

  /**
   In every run, whatever happens between the decision and the settlement of a retriable failure: its task, unless
   done, ends in error with the failure on its card exactly if the agent had an active trace for that task when the
   retry was decided; otherwise a retry is queued and the card is untouched.
   */
  lemma RetryParksIffUnitBusy(agents: set<AgentId>, tasks: map<TaskId, Task>, before: seq<Step>, between: seq<Step>,
                              i: nat, now: nat, task: TaskId)
    requires Unmentioned(tasks) && RetryDue(Execute(Empty(agents, tasks), before), i, now, task)
    requires var c := Execute(Empty(agents, tasks), before + [DecideNext(i, now)] + between);
             Enabled(c, SettleTask(i)) && task in c.tasks && c.tasks[task].status != Done
    ensures var db := Execute(Empty(agents, tasks), before);
            var c := Execute(Empty(agents, tasks), before + [DecideNext(i, now)] + between);
            var d := Next(c, SettleTask(i));
            && (UnitBusy(db, i) <==> d.tasks[task].status == Error && AgentResult(i, true) in d.tasks[task].blocks)
            && (UnitBusy(db, i) <==> forall j | 0 <= j < |d.traces| :: d.traces[j].retryOf != Some(i))
            && (!UnitBusy(db, i) ==> d.tasks == c.tasks)
  {
    var start, decide := Empty(agents, tasks), DecideNext(i, now);
    var db, c := Execute(start, before), Execute(start, before + [decide] + between);
    ExecuteSnoc(start, before, db, decide);
    ExecuteAppend(start, before + [decide], between);
    RunsKeepBooks(agents, tasks, before);
    RunsKeepBooks(agents, tasks, before + [decide]);
    RunsKeepBooks(agents, tasks, before + [decide] + between);
    var m := Next(db, decide);
    RetryDecision(db, i, now, task);
    StepGrows(db, decide);
    RunsGoOn(m, between);
    ParkingFacts(db, m, c, i, now, task);
  }

  lemma ParkingFacts(db: Db, m: Db, c: Db, i: nat, now: nat, task: TaskId)
    requires Inv(db) && RetryDue(db, i, now, task) && db.traces[i].agent in db.agents
    requires m == Next(db, DecideNext(i, now)) && Grown(db, m, Some(i)) && Later(m, c)
    requires Enabled(c, SettleTask(i)) && task in c.tasks && c.tasks[task].status != Done && BlocksOk(c)
    ensures var d := Next(c, SettleTask(i));
            && (UnitBusy(db, i) <==> task in d.tasks && d.tasks[task].status == Error && AgentResult(i, true) in d.tasks[task].blocks)
            && (UnitBusy(db, i) <==> forall j | 0 <= j < |d.traces| :: d.traces[j].retryOf != Some(i))
            && (!UnitBusy(db, i) ==> d.tasks == c.tasks)
  {
    var run, busy := db.stages[i].run, UnitBusy(db, i);
    RetryDecision(db, i, now, task);
    DecidedAndFollowed(db, m, i, now, task);
    assert run.Ran? && run.outcome == Failed && db.traces[i].task == Some(task) && i < |db.traces|;
    hide Inv, UnitBusy, RetryDue, Next;
    DecisionStands(db, m, c, i, task, run, !busy);
    SettleParks(c, i, task, run, !busy);
    FollowUpsStay(m, c, i);
    hide Grown, BlocksOk, Enabled, Later;
  }

  lemma DecidedAndFollowed(db: Db, m: Db, i: nat, now: nat, task: TaskId)
    requires Inv(db) && RetryDue(db, i, now, task) && db.traces[i].agent in db.agents
    requires m == Next(db, DecideNext(i, now))
    ensures UnitBusy(db, i) <==> forall j | 0 <= j < |m.traces| :: m.traces[j].retryOf != Some(i)
  {
    RetryDecision(db, i, now, task);
    if UnitBusy(db, i) {
      Childless(db, i, now, task);
    } else {
      DecideGrows(db, i, now);
      hide Inv, UnitBusy, Decide;
    }
  }

  lemma DecisionStands(db: Db, m: Db, c: Db, i: nat, task: TaskId, run: Run, enqueued: bool)
    requires Grown(db, m, Some(i)) && Later(m, c) && i < |db.traces| && m.stages[i] == Decided(run, enqueued)
    requires db.traces[i].task == Some(task) && Enabled(c, SettleTask(i)) && BlocksOk(c) && task in c.tasks
    ensures c.stages[i] == Decided(run, enqueued) && c.traces[i].task == Some(task)
    ensures AgentResult(i, true) !in c.tasks[task].blocks
  {
    hide Follows;
    assert Settles(m.stages[i], c.stages[i]);
  }

  lemma FollowUpsStay(m: Db, c: Db, i: nat)
    requires Later(m, c) && i < |m.stages| && Decisive(m.stages[i])
    ensures (forall j | 0 <= j < |c.traces| :: c.traces[j].retryOf != Some(i))
       <==> (forall j | 0 <= j < |m.traces| :: m.traces[j].retryOf != Some(i))
  {
    if forall j | 0 <= j < |c.traces| :: c.traces[j].retryOf != Some(i) {
      forall j | 0 <= j < |m.traces| ensures m.traces[j].retryOf != Some(i) {
        assert c.traces[j].retryOf != Some(i);
      }
    }
  }

  /** The worker never takes a task out of error, and what a later trace of it achieves is shown on its card all the same. */
  lemma ParkedForGood(agents: set<AgentId>, tasks: map<TaskId, Task>, steps: seq<Step>, after: seq<Step>, j: nat, task: TaskId)
    requires Unmentioned(tasks)
    requires var c := Execute(Empty(agents, tasks), steps); task in c.tasks && c.tasks[task].status == Error
    requires var d := Execute(Empty(agents, tasks), steps + after);
             j < |d.traces| && j < |d.stages| && d.traces[j].task == Some(task) && Shows(d.stages[j], false)
    ensures var d := Execute(Empty(agents, tasks), steps + after);
            task in d.tasks && d.tasks[task].status == Error && AgentResult(j, false) in d.tasks[task].blocks
  {
    var c := Execute(Empty(agents, tasks), steps);
    ExecuteAppend(Empty(agents, tasks), steps, after);
    RunsMoveTasksForward(c, after);
    var d := Execute(Empty(agents, tasks), steps + after);
    assert TaskMovesForward(c.tasks[task], d.tasks[task]);
    SuccessIsShownIff(agents, tasks, steps + after, j, task);
  }

  // ---- runs that show it -------------------------------------------------------

  // A table with one agent and one task.
  ghost predicate At(d: Db, agent: AgentId, task: TaskId, traces: seq<Trace>, stages: seq<Stage>, card: Task) {
    d.agents == {agent} && d.tasks == map[task := card] && d.traces == traces && d.stages == stages && |traces| == |stages|
  }

  function Fresh(agent: AgentId, task: TaskId, status: TraceStatus, coalesced: nat): Trace {
    Trace(agent, Some(task), None, status, None, 0, 0, None, coalesced, 0, NO_USAGE)
  }

  function WakeUp(agent: AgentId, task: TaskId): Step {
    WakeFrom(WakeInput(agent, Some(task), None, None, 0, 0, None, 0))
  }

  lemma AtWake(d: Db, agent: AgentId, task: TaskId, traces: seq<Trace>, stages: seq<Stage>, card: Task)
    requires At(d, agent, task, traces, stages, card) && forall k | 0 <= k < |traces| :: !Active(traces[k])
    ensures Enabled(d, WakeUp(agent, task))
    ensures At(Next(d, WakeUp(agent, task)), agent, task, traces + [Fresh(agent, task, Queued, 0)], stages + [Idle], card)
  {
    hide FirstKey, NewestUnit;
  }

  // A tick claims the newest trace, the only active one.
  lemma AtClaim(d: Db, agent: AgentId, task: TaskId, traces: seq<Trace>, stages: seq<Stage>, card: Task, n: nat)
    requires At(d, agent, task, traces, stages, card) && |traces| == n + 1 && Eligible(traces[n], 0)
    requires forall k | 0 <= k < n :: !Active(traces[k])
    ensures Enabled(d, Tick(0, 1))
    ensures At(Next(d, Tick(0, 1)), agent, task, traces[n := traces[n].(status := Running)], stages[n := Claimed], card)
  {
    OnlyOne(traces, 0);
    var c := Claim(d, 0, 1);
    assert |c.traces| == |traces| && |c.stages| == |stages|;
    forall k | 0 <= k < |traces|
      ensures c.traces[k] == traces[n := traces[n].(status := Running)][k] && c.stages[k] == stages[n := Claimed][k]
    {
      assert k in [n] <==> k == n;
    }
    hide Oldest, Claim;
    assert c.traces == traces[n := traces[n].(status := Running)] && c.stages == stages[n := Claimed];
  }

  lemma AtStart(d: Db, agent: AgentId, task: TaskId, traces: seq<Trace>, stages: seq<Stage>, card: Task, n: nat)
    requires At(d, agent, task, traces, stages, card) && n < |traces| && traces[n].task == Some(task) && stages[n] == Claimed
    ensures Enabled(d, Start(n))
    ensures At(Next(d, Start(n)), agent, task, traces, stages[n := Started],
               if card.status == Todo then card.(status := InProgress, errorCode := None) else card)
  {
  }

  lemma AtFinish(d: Db, agent: AgentId, task: TaskId, traces: seq<Trace>, stages: seq<Stage>, card: Task, n: nat, run: Run)
    requires At(d, agent, task, traces, stages, card) && n < |traces| && LegalRun(run)
    requires (stages[n] == Started && !run.Unresolvable?) || (stages[n] == Claimed && !run.Ran?)
    ensures Enabled(d, Finish(n, run))
    ensures At(Next(d, Finish(n, run)), agent, task, traces[n := traces[n].(status := FinalStatus(run), usage := UsageOf(run))],
               stages[n := if run.Ran? then Finalized(run) else Over(run)], card)
  {
  }

  const UNREACHABLE := Ran(Failed, Some("network_error"), None, None, Reply(true, false, false))
  const DELIVERED := Ran(Succeeded, None, None, None, Reply(false, false, false))

  function NewCard(agent: AgentId): Task {
    Task(Todo, Some(agent), false, None, [])
  }

  // One trace of the task is claimed.
  lemma FirstClaim(agent: AgentId, task: TaskId) returns (d: Db)
    ensures d == Execute(Empty({agent}, map[task := NewCard(agent)]), [WakeUp(agent, task)] + [Tick(0, 1)])
    ensures At(d, agent, task, [Fresh(agent, task, Running, 0)], [Claimed], NewCard(agent))
  {
    var db := Empty({agent}, map[task := NewCard(agent)]);
    assert At(db, agent, task, [], [], NewCard(agent)) && Execute(db, []) == db;
    hide Execute, Next, Enabled, At;
    AtWake(db, agent, task, [], [], NewCard(agent));
    ExecuteSnoc(db, [], db, WakeUp(agent, task));
    assert [] + [WakeUp(agent, task)] == [WakeUp(agent, task)];
    var c := Next(db, WakeUp(agent, task));
    assert [] + [Fresh(agent, task, Queued, 0)] == [Fresh(agent, task, Queued, 0)] && [] + [Idle] == [Idle];
    AtClaim(c, agent, task, [Fresh(agent, task, Queued, 0)], [Idle], NewCard(agent), 0);
    ExecuteSnoc(db, [WakeUp(agent, task)], c, Tick(0, 1));
    d := Next(c, Tick(0, 1));
    assert [Fresh(agent, task, Queued, 0)][0 := Fresh(agent, task, Running, 0)] == [Fresh(agent, task, Running, 0)];
    assert [Idle][0 := Claimed] == [Claimed];
  }

  /** Runs nobody hears of: no adapter, and a crash. The trace has failed, the card is as if it were still at work. */
  lemma SilentRuns(agent: AgentId, task: TaskId, code: string)
    ensures var d := Execute(Empty({agent}, map[task := NewCard(agent)]),
                             [WakeUp(agent, task)] + [Tick(0, 1)] + [Finish(0, Unresolvable(code))]);
            At(d, agent, task, [Fresh(agent, task, Failed, 0)], [Over(Unresolvable(code))], NewCard(agent))
    ensures var d := Execute(Empty({agent}, map[task := NewCard(agent)]),
                             [WakeUp(agent, task)] + [Tick(0, 1)] + [Start(0)] + [Finish(0, Crashed)]);
            At(d, agent, task, [Fresh(agent, task, Failed, 0)], [Over(Crashed)], NewCard(agent).(status := InProgress))
  {
    var db, steps := Empty({agent}, map[task := NewCard(agent)]), [WakeUp(agent, task)] + [Tick(0, 1)];
    var running, failed := [Fresh(agent, task, Running, 0)], [Fresh(agent, task, Failed, 0)];
    assert running[0 := running[0].(status := Failed, usage := NO_USAGE)] == failed;
    assert [Claimed][0 := Over(Unresolvable(code))] == [Over(Unresolvable(code))] && [Claimed][0 := Started] == [Started];
    assert [Started][0 := Over(Crashed)] == [Over(Crashed)];
    hide Execute, Next, Enabled, At;
    var d := FirstClaim(agent, task);
    AtFinish(d, agent, task, running, [Claimed], NewCard(agent), 0, Unresolvable(code));
    ExecuteSnoc(db, steps, d, Finish(0, Unresolvable(code)));
    AtStart(d, agent, task, running, [Claimed], NewCard(agent), 0);
    ExecuteSnoc(db, steps, d, Start(0));
    var e, card := Next(d, Start(0)), NewCard(agent).(status := InProgress);
    AtFinish(e, agent, task, running, [Started], card, 0, Crashed);
    ExecuteSnoc(db, steps + [Start(0)], e, Finish(0, Crashed));
  }

  lemma AtSync(d: Db, agent: AgentId, task: TaskId, traces: seq<Trace>, stages: seq<Stage>, card: Task, n: nat, run: Run)
    requires At(d, agent, task, traces, stages, card) && n < |traces| && traces[n].task == Some(task)
    requires stages[n] == Finalized(run) && run in {UNREACHABLE, DELIVERED} && card.status in {InProgress, Error}
    ensures Enabled(d, SyncTask(n))
    ensures run == UNREACHABLE ==> At(Next(d, SyncTask(n)), agent, task, traces, stages[n := Synced(run)], card)
    ensures run == DELIVERED && card.status == Error ==>
              At(Next(d, SyncTask(n)), agent, task, traces, stages[n := Synced(run)],
                 card.(blocks := WithBlock(card.blocks, AgentResult(n, false))))
  {
    hide WithBlock;
  }

  // The first trace failed, the second is queued for the same task: the retry coalesces into it.
  lemma AtCoalesce(d: Db, agent: AgentId, task: TaskId, card: Task)
    requires At(d, agent, task, [Fresh(agent, task, Failed, 0)] + [Fresh(agent, task, Queued, 0)],
                [Synced(UNREACHABLE)] + [Idle], card)
    ensures Enabled(d, DecideNext(0, 0))
    ensures At(Next(d, DecideNext(0, 0)), agent, task, [Fresh(agent, task, Failed, 0)] + [Fresh(agent, task, Queued, 1)],
               [Decided(UNREACHABLE, false)] + [Idle], card)
  {
    var traces := [Fresh(agent, task, Failed, 0)] + [Fresh(agent, task, Queued, 0)];
    var input := RetryInput(traces[0], 0, 0);
    assert !SameKey(traces[0], input) && !SameKey(traces[1], input) && SameUnit(traces[1], input) && !SameUnit(traces[0], input);
    assert FirstKey(traces, input) == 2 && NewestUnit(traces, input) == 1 by { hide FirstKey, NewestUnit; }
    assert traces[1 := traces[1].(coalesced := 1)] == [Fresh(agent, task, Failed, 0)] + [Fresh(agent, task, Queued, 1)];
    assert ([Synced(UNREACHABLE)] + [Idle])[0 := Decided(UNREACHABLE, false)] == [Decided(UNREACHABLE, false)] + [Idle];
    hide FirstKey, NewestUnit;
  }

  lemma AtPark(d: Db, agent: AgentId, task: TaskId, traces: seq<Trace>, stages: seq<Stage>, card: Task)
    requires At(d, agent, task, traces, stages, card) && |traces| > 0 && traces[0].task == Some(task)
    requires stages[0] == Decided(UNREACHABLE, false) && card.status == InProgress && card.blocks == []
    ensures Enabled(d, SettleTask(0))
    ensures At(Next(d, SettleTask(0)), agent, task, traces, stages[0 := Over(UNREACHABLE)],
               card.(status := Error, errorCode := Some("network_error"), blocks := [AgentResult(0, true)]))
  {
    assert WithBlock(card.blocks, AgentResult(0, true)) == [AgentResult(0, true)];
    hide WithBlock;
    var parked := card.(status := Error, errorCode := Some("network_error"), blocks := [AgentResult(0, true)]);
    assert Next(d, SettleTask(0)).tasks == d.tasks[task := parked];
    assert d.tasks[task := parked] == map[task := parked];
  }

  // A trace fails in a way worth retrying; before that is decided, the task is woken again.
  function WokenTooEarly(agent: AgentId, task: TaskId): seq<Step> {
    [WakeUp(agent, task)] + [Tick(0, 1)] + [Start(0)] + [Finish(0, UNREACHABLE)] + [WakeUp(agent, task)]
    + [SyncTask(0)] + [DecideNext(0, 0)] + [SettleTask(0)]
  }

  function OtherTraceRuns(): seq<Step> {
    [Tick(0, 1)] + [Start(1)] + [Finish(1, DELIVERED)] + [SyncTask(1)]
  }

  function Parked(agent: AgentId, blocks: seq<Block>): Task {
    Task(Error, Some(agent), false, Some("network_error"), blocks)
  }

  /** The coalesced retry parks the task in error while the trace it coalesced into is still queued. */
  lemma CoalescedRetryParksOpenWork(agent: AgentId, task: TaskId)
    ensures At(Execute(Empty({agent}, map[task := NewCard(agent)]), WokenTooEarly(agent, task)), agent, task,
               [Fresh(agent, task, Failed, 0)] + [Fresh(agent, task, Queued, 1)], [Over(UNREACHABLE)] + [Idle],
               Parked(agent, [AgentResult(0, true)]))
  {
    var db, s1 := Empty({agent}, map[task := NewCard(agent)]), [WakeUp(agent, task)] + [Tick(0, 1)];
    var running, failed, both := [Fresh(agent, task, Running, 0)], [Fresh(agent, task, Failed, 0)],
      [Fresh(agent, task, Failed, 0)] + [Fresh(agent, task, Queued, 0)];
    var card := NewCard(agent).(status := InProgress);
    assert running[0 := running[0].(status := Failed, usage := NO_USAGE)] == failed;
    assert [Claimed][0 := Started] == [Started] && [Started][0 := Finalized(UNREACHABLE)] == [Finalized(UNREACHABLE)];
    assert ([Finalized(UNREACHABLE)] + [Idle])[0 := Synced(UNREACHABLE)] == [Synced(UNREACHABLE)] + [Idle];
    assert ([Decided(UNREACHABLE, false)] + [Idle])[0 := Over(UNREACHABLE)] == [Over(UNREACHABLE)] + [Idle];
    assert both[0].task == Some(task) && LegalRun(UNREACHABLE);
    hide Execute, Next, Enabled, At;
    var d1 := FirstClaim(agent, task);
    AtStart(d1, agent, task, running, [Claimed], NewCard(agent), 0);
    var d2 := Next(d1, Start(0));
    ExecuteSnoc(db, s1, d1, Start(0));
    AtFinish(d2, agent, task, running, [Started], card, 0, UNREACHABLE);
    var d3 := Next(d2, Finish(0, UNREACHABLE));
    ExecuteSnoc(db, s1 + [Start(0)], d2, Finish(0, UNREACHABLE));
    AtWake(d3, agent, task, failed, [Finalized(UNREACHABLE)], card);
    var d4 := Next(d3, WakeUp(agent, task));
    ExecuteSnoc(db, s1 + [Start(0)] + [Finish(0, UNREACHABLE)], d3, WakeUp(agent, task));
    AtSync(d4, agent, task, both, [Finalized(UNREACHABLE)] + [Idle], card, 0, UNREACHABLE);
    var d5 := Next(d4, SyncTask(0));
    ExecuteSnoc(db, s1 + [Start(0)] + [Finish(0, UNREACHABLE)] + [WakeUp(agent, task)], d4, SyncTask(0));
    AtCoalesce(d5, agent, task, card);
    var d6 := Next(d5, DecideNext(0, 0));
    ExecuteSnoc(db, s1 + [Start(0)] + [Finish(0, UNREACHABLE)] + [WakeUp(agent, task)] + [SyncTask(0)], d5, DecideNext(0, 0));
    AtPark(d6, agent, task, failed + [Fresh(agent, task, Queued, 1)], [Decided(UNREACHABLE, false)] + [Idle], card);
    ExecuteSnoc(db, s1 + [Start(0)] + [Finish(0, UNREACHABLE)] + [WakeUp(agent, task)] + [SyncTask(0)] + [DecideNext(0, 0)],
                d6, SettleTask(0));
  }

  /** That trace then succeeds: its result is shown on a task that stays in error. */
  lemma WorkOfParkedTaskSucceeds(agent: AgentId, task: TaskId)
    ensures At(Execute(Empty({agent}, map[task := NewCard(agent)]), WokenTooEarly(agent, task) + OtherTraceRuns()), agent, task,
               [Fresh(agent, task, Failed, 0)] + [Fresh(agent, task, Succeeded, 1)], [Over(UNREACHABLE)] + [Synced(DELIVERED)],
               Parked(agent, [AgentResult(0, true)] + [AgentResult(1, false)]))
  {
    var start := Empty({agent}, map[task := NewCard(agent)]);
    ExecuteAppend(start, WokenTooEarly(agent, task), OtherTraceRuns());
    CoalescedRetryParksOpenWork(agent, task);
    hide Execute, At, WokenTooEarly, OtherTraceRuns;
    OtherTraceSucceeds(Execute(start, WokenTooEarly(agent, task)), agent, task);
  }

  lemma OtherTraceSucceeds(db: Db, agent: AgentId, task: TaskId)
    requires At(db, agent, task, [Fresh(agent, task, Failed, 0)] + [Fresh(agent, task, Queued, 1)], [Over(UNREACHABLE)] + [Idle],
                Parked(agent, [AgentResult(0, true)]))
    ensures At(Execute(db, OtherTraceRuns()), agent, task,
               [Fresh(agent, task, Failed, 0)] + [Fresh(agent, task, Succeeded, 1)], [Over(UNREACHABLE)] + [Synced(DELIVERED)],
               Parked(agent, [AgentResult(0, true)] + [AgentResult(1, false)]))
  {
    assert Execute(db, []) == db;
    hide Execute, Next, Enabled, At;
    var failed, card := [Fresh(agent, task, Failed, 0)], Parked(agent, [AgentResult(0, true)]);
    var queued, running := failed + [Fresh(agent, task, Queued, 1)], failed + [Fresh(agent, task, Running, 1)];
    var over := [Over(UNREACHABLE)];
    assert queued[1 := queued[1].(status := Running)] == running;
    assert running[1 := running[1].(status := Succeeded, usage := NO_USAGE)] == failed + [Fresh(agent, task, Succeeded, 1)];
    assert (over + [Idle])[1 := Claimed] == over + [Claimed] && (over + [Claimed])[1 := Started] == over + [Started];
    assert (over + [Started])[1 := Finalized(DELIVERED)] == over + [Finalized(DELIVERED)];
    assert (over + [Finalized(DELIVERED)])[1 := Synced(DELIVERED)] == over + [Synced(DELIVERED)];
    assert LegalRun(DELIVERED) && WithBlock(card.blocks, AgentResult(1, false)) == [AgentResult(0, true)] + [AgentResult(1, false)];
    assert [] + [Tick(0, 1)] == [Tick(0, 1)];
    hide WithBlock;
    AtClaim(db, agent, task, queued, over + [Idle], card, 1);
    ExecuteSnoc(db, [], db, Tick(0, 1));
    var d1 := Next(db, Tick(0, 1));
    AtStart(d1, agent, task, running, over + [Claimed], card, 1);
    ExecuteSnoc(db, [Tick(0, 1)], d1, Start(1));
    var d2 := Next(d1, Start(1));
    AtFinish(d2, agent, task, running, over + [Started], card, 1, DELIVERED);
    ExecuteSnoc(db, [Tick(0, 1)] + [Start(1)], d2, Finish(1, DELIVERED));
    var d3 := Next(d2, Finish(1, DELIVERED));
    AtSync(d3, agent, task, failed + [Fresh(agent, task, Succeeded, 1)], over + [Finalized(DELIVERED)], card, 1, DELIVERED);
    ExecuteSnoc(db, [Tick(0, 1)] + [Start(1)] + [Finish(1, DELIVERED)], d3, SyncTask(1));
  }
}
