/** What every run of the worker keeps, over all interleavings of its steps. */
module WorkerRuns {
  import opened Text
  import opened RetryPolicy
  import opened WorkerState

  // ---- the invariant -----------------------------------------------------------

  ghost predicate StageOk(db: Db, i: nat)
    requires i < |db.traces| == |db.stages|
  {
    match db.stages[i]
    case Idle => db.traces[i].status == Queued
    case Claimed => db.traces[i].status == Running
    case Started => db.traces[i].status == Running
    case Over(run) => LegalRun(run) && db.traces[i].status == FinalStatus(run)
    case _ =>
      var run := db.stages[i].run;
      run.Ran? && LegalRun(run) && db.traces[i].status == run.outcome
  }

  // At most one queued or running trace per agent and work unit.
  ghost predicate OneActivePerUnit(db: Db) {
    forall i, j | 0 <= i < j < |db.traces| && Active(db.traces[i]) && Active(db.traces[j]) ::
      db.traces[i].agent != db.traces[j].agent || db.traces[i].task != db.traces[j].task
  }

  predicate Decisive(s: Stage) {
    s.Decided? || s.Over?
  }

  ghost predicate IsRetryOf(t: Trace, p: Trace) {
    && p.status == Failed && t.failureRetryAttempt == p.failureRetryAttempt + 1 && t.continuationAttempt == 0
    && t.failureRetryAttempt <= MAX_RETRY_ATTEMPTS
    && t.delayMs == RETRY_DELAYS_MS[p.failureRetryAttempt]
  }

  ghost predicate IsContinuationOf(t: Trace, p: Trace) {
    && p.status == Succeeded && t.continuationAttempt == p.continuationAttempt + 1 && t.failureRetryAttempt == 0
    && t.continuationAttempt <= MAX_CONTINUATION
    && t.delayMs == 0
  }

  // A trace is a first wake, or follows up one earlier trace whose execution is decided.
  ghost predicate LineageOk(db: Db, i: nat)
    requires i < |db.traces| == |db.stages|
  {
    var t := db.traces[i];
    match t.retryOf
    case None => t.failureRetryAttempt == 0 && t.continuationAttempt == 0
    case Some(p) =>
      && p < i && Decisive(db.stages[p])
      && t.agent == db.traces[p].agent && t.task == db.traces[p].task
      && (IsRetryOf(t, db.traces[p]) || IsContinuationOf(t, db.traces[p]))
  }

  ghost predicate OneFollowUp(db: Db) {
    forall i, j | 0 <= i < j < |db.traces| && db.traces[i].retryOf.Some? :: db.traces[i].retryOf != db.traces[j].retryOf
  }

  // Each trace is claimed once at most, and exactly the claimed ones left the queue.
  ghost predicate ClaimsOk(db: Db)
    requires |db.traces| == |db.stages|
  {
    && (forall i | 0 <= i < |db.traces| :: i in db.claims <==> !db.stages[i].Idle?)
    && (forall k | 0 <= k < |db.claims| :: db.claims[k] < |db.traces|)
    && (forall j, k | 0 <= j < k < |db.claims| :: db.claims[j] != db.claims[k])
  }

  function SumCoalesced(traces: seq<Trace>): nat {
    if traces == [] then 0 else SumCoalesced(traces[..|traces| - 1]) + traces[|traces| - 1].coalesced
  }

  // Usage of all executed traces of an agent; a trace carries usage once it is finalized.
  function SumUsage(traces: seq<Trace>, agent: AgentId): Usage {
    if traces == [] then NO_USAGE
    else
      var before := SumUsage(traces[..|traces| - 1], agent);
      var last := traces[|traces| - 1];
      if last.agent == agent then AddUsage(before, last.usage) else before
  }

  ghost predicate AccountsOk(db: Db) {
    && db.wakes == |db.traces| + SumCoalesced(db.traces) + db.duplicates
    && (forall agent :: TotalOf(db, agent) == SumUsage(db.traces, agent))
    && (|db.stages| == |db.traces| ==>
          forall i | 0 <= i < |db.traces| && Active(db.traces[i]) :: db.traces[i].usage == NO_USAGE)
  }

  ghost predicate Inv(db: Db) {
    && |db.stages| == |db.traces|
    && (forall i | 0 <= i < |db.traces| :: StageOk(db, i))
    && (forall i | 0 <= i < |db.traces| :: LineageOk(db, i))
    && OneActivePerUnit(db) && OneFollowUp(db) && ClaimsOk(db) && AccountsOk(db)
  }

  // ---- sums under updates ------------------------------------------------------

  lemma {:induction false} SumCoalescedUpdate(traces: seq<Trace>, i: nat, t: Trace)
    requires i < |traces|
    ensures SumCoalesced(traces[i := t]) + traces[i].coalesced == SumCoalesced(traces) + t.coalesced
  {
    var n := |traces| - 1;
    if i == n {
      assert traces[i := t][..n] == traces[..n];
    } else {
      assert traces[i := t][..n] == traces[..n][i := t];
      SumCoalescedUpdate(traces[..n], i, t);
    }
  }

  lemma SumsSnoc(traces: seq<Trace>, t: Trace, agent: AgentId)
    ensures SumCoalesced(traces + [t]) == SumCoalesced(traces) + t.coalesced
    ensures SumUsage(traces + [t], agent)
         == if t.agent == agent then AddUsage(SumUsage(traces, agent), t.usage) else SumUsage(traces, agent)
  {
    assert (traces + [t])[..|traces|] == traces;
  }

  lemma {:induction false} SumUsageSame(a: seq<Trace>, b: seq<Trace>, agent: AgentId)
    requires |a| == |b| && forall i | 0 <= i < |a| :: a[i].agent == b[i].agent && a[i].usage == b[i].usage
    ensures SumUsage(a, agent) == SumUsage(b, agent)
  {
    if a != [] {
      SumUsageSame(a[..|a| - 1], b[..|b| - 1], agent);
    }
  }

  lemma {:induction false} SumCoalescedSame(a: seq<Trace>, b: seq<Trace>)
    requires |a| == |b| && forall i | 0 <= i < |a| :: a[i].coalesced == b[i].coalesced
    ensures SumCoalesced(a) == SumCoalesced(b)
  {
    if a != [] {
      SumCoalescedSame(a[..|a| - 1], b[..|b| - 1]);
    }
  }

  // A trace's usage goes from nothing to `u`.
  lemma {:induction false} SumUsageGain(traces: seq<Trace>, i: nat, t: Trace, agent: AgentId)
    requires i < |traces| && traces[i].usage == NO_USAGE && t.agent == traces[i].agent
    ensures SumUsage(traces[i := t], agent)
         == if t.agent == agent then AddUsage(SumUsage(traces, agent), t.usage) else SumUsage(traces, agent)
  {
    var n := |traces| - 1;
    if i == n {
      assert traces[i := t][..n] == traces[..n];
    } else {
      assert traces[i := t][..n] == traces[..n][i := t];
      SumUsageGain(traces[..n], i, t, agent);
    }
  }

  // ---- each step keeps it ------------------------------------------------------

  // A wake made by nobody, or on behalf of a trace whose decision is being taken.
  ghost predicate GoodInput(db: Db, input: WakeInput)
    requires |db.stages| == |db.traces|
  {
    match input.retryOf
    case None => input.failureRetryAttempt == 0 && input.continuationAttempt == 0
    case Some(p) =>
      && p < |db.traces| && Decisive(db.stages[p])
      && input.agent == db.traces[p].agent && input.task == db.traces[p].task
      && (forall j | 0 <= j < |db.traces| :: db.traces[j].retryOf != Some(p))
      && var t := Trace(input.agent, input.task, input.key, Queued, input.scheduledAt, input.failureRetryAttempt,
                        input.continuationAttempt, input.retryOf, 0, input.delayMs, NO_USAGE);
      (IsRetryOf(t, db.traces[p]) || IsContinuationOf(t, db.traces[p]))
  }

  lemma WakeKeeps(db: Db, input: WakeInput)
    requires Inv(db) && GoodInput(db, input)
    ensures Inv(Wake(db, input).0)
    ensures Wake(db, input).0.tasks == db.tasks
    ensures var d := Wake(db, input).0; |db.stages| <= |d.stages| && d.stages[..|db.stages|] == db.stages
  {
    hide SumCoalesced, SumUsage, FirstKey, NewestUnit;
    var d, r := Wake(db, input).0, Wake(db, input).1;
    if r.Woken? {
      if r.coalesced {
        if d.traces != db.traces {
          SumCoalescedUpdate(db.traces, r.trace, d.traces[r.trace]);
          UsageUnchanged(db, d);
        }
        SameShape(db, d);
      } else {
        AddTraceKeeps(db, d);
      }
    }
  }

  lemma UsageUnchanged(db: Db, d: Db)
    requires AccountsOk(db) && d.totals == db.totals && |d.traces| == |db.traces|
    requires forall i | 0 <= i < |db.traces| :: d.traces[i].agent == db.traces[i].agent && d.traces[i].usage == db.traces[i].usage
    ensures forall agent :: TotalOf(d, agent) == SumUsage(d.traces, agent)
  {
    hide SumUsage;
    forall agent ensures TotalOf(d, agent) == SumUsage(d.traces, agent) {
      SumUsageSame(d.traces, db.traces, agent);
    }
  }

  // Nothing but coalescing counts, tasks and the stage of decided traces differs.
  lemma SameShape(db: Db, d: Db)
    requires Inv(db) && d.stages == db.stages && |d.traces| == |db.traces| && d.claims == db.claims
    requires forall i | 0 <= i < |db.traces| :: d.traces[i] == db.traces[i].(coalesced := d.traces[i].coalesced)
    requires AccountsOk(d)
    ensures Inv(d)
  {
    hide SumCoalesced, SumUsage;
    forall i | 0 <= i < |d.traces| ensures StageOk(d, i) && LineageOk(d, i) {
      assert StageOk(db, i) && LineageOk(db, i);
      assert d.traces[i] == db.traces[i].(coalesced := d.traces[i].coalesced);
    }
  }

  lemma AddTraceKeeps(db: Db, d: Db)
    requires Inv(db) && d.stages == db.stages + [Idle] && |d.traces| == |db.traces| + 1
    requires d.traces[..|db.traces|] == db.traces && d.claims == db.claims && d.totals == db.totals
    requires d.duplicates == db.duplicates && d.wakes == db.wakes + 1
    requires var t := d.traces[|db.traces|];
             && t.status == Queued && t.coalesced == 0 && t.usage == NO_USAGE
             && (forall j | 0 <= j < |db.traces| && Active(db.traces[j]) ::
                   db.traces[j].agent != t.agent || db.traces[j].task != t.task)
             && match t.retryOf
                case None => t.failureRetryAttempt == 0 && t.continuationAttempt == 0
                case Some(p) =>
                  && p < |db.traces| && Decisive(db.stages[p])
                  && t.agent == db.traces[p].agent && t.task == db.traces[p].task
                  && (forall j | 0 <= j < |db.traces| :: db.traces[j].retryOf != Some(p))
                  && (IsRetryOf(t, db.traces[p]) || IsContinuationOf(t, db.traces[p]))
    ensures Inv(d)
  {
    hide SumCoalesced, SumUsage;
    var n := |db.traces|;
    assert d.traces == db.traces + [d.traces[n]];
    forall i | 0 <= i < n ensures d.traces[i] == db.traces[i] && d.stages[i] == db.stages[i] {
    }
    assert forall i | 0 <= i < n :: StageOk(d, i) && LineageOk(d, i) by {
      hide IsRetryOf, IsContinuationOf, AccountsOk, OneActivePerUnit, OneFollowUp, ClaimsOk;
      forall i | 0 <= i < n ensures StageOk(d, i) && LineageOk(d, i) {
        assert StageOk(db, i) && LineageOk(db, i);
      }
    }
    assert StageOk(d, n) && LineageOk(d, n);
    assert OneActivePerUnit(d) && OneFollowUp(d) by {
      hide IsRetryOf, IsContinuationOf, AccountsOk, ClaimsOk, LineageOk, StageOk;
    }
    assert ClaimsOk(d) by {
      hide IsRetryOf, IsContinuationOf, AccountsOk, OneActivePerUnit, OneFollowUp, LineageOk, StageOk;
    }
    AddAccounts(db, d, d.traces[n]);
  }

  lemma AddAccounts(db: Db, d: Db, t: Trace)
    requires AccountsOk(db) && |db.stages| == |db.traces| && d.traces == db.traces + [t] && d.totals == db.totals
    requires d.duplicates == db.duplicates && d.wakes == db.wakes + 1
    requires t.coalesced == 0 && t.usage == NO_USAGE
    ensures AccountsOk(d)
  {
    hide SumCoalesced, SumUsage;
    SumsSnoc(db.traces, t, "");
    forall agent ensures TotalOf(d, agent) == SumUsage(d.traces, agent) {
      SumsSnoc(db.traces, t, agent);
      assert TotalOf(db, agent) == SumUsage(db.traces, agent);
    }
    forall i | 0 <= i < |d.traces| && Active(d.traces[i]) ensures d.traces[i].usage == NO_USAGE {
      if i < |db.traces| { assert d.traces[i] == db.traces[i]; }
    }
  }

  // A batch claim only turns the chosen queued traces into running ones.
  ghost predicate BatchClaimed(db: Db, d: Db, ids: seq<nat>) {
    && |d.traces| == |d.stages| == |db.traces| == |db.stages|
    && (forall k | 0 <= k < |ids| :: ids[k] < |db.traces| && db.traces[ids[k]].status == Queued)
    && (forall j, k | 0 <= j < k < |ids| :: ids[j] != ids[k])
    && (forall i | 0 <= i < |db.traces| ::
          && d.traces[i] == (if i in ids then db.traces[i].(status := Running) else db.traces[i])
          && d.stages[i] == (if i in ids then Claimed else db.stages[i]))
    && d == db.(traces := d.traces, stages := d.stages, claims := db.claims + ids)
  }

  lemma ClaimKeeps(db: Db, now: nat, limit: nat)
    requires Inv(db)
    ensures Inv(Claim(db, now, limit))
    ensures BatchClaimed(db, Claim(db, now, limit), Oldest(db.traces, now, limit))
  {
    var d, ids := Claim(db, now, limit), Oldest(db.traces, now, limit);
    assert BatchClaimed(db, d, ids) by {
      hide Inv, Oldest;
    }
    BatchKeepsRows(db, d, ids);
    BatchKeepsClaims(db, d, ids);
    BatchKeepsAccounts(db, d, ids);
  }

  lemma BatchKeepsRows(db: Db, d: Db, ids: seq<nat>)
    requires Inv(db) && BatchClaimed(db, d, ids)
    ensures forall i | 0 <= i < |d.traces| :: StageOk(d, i) && LineageOk(d, i)
    ensures OneActivePerUnit(d) && OneFollowUp(d)
  {
    hide AccountsOk, ClaimsOk;
    forall i | 0 <= i < |d.traces|
      ensures Active(d.traces[i]) <==> Active(db.traces[i])
      ensures d.traces[i] == db.traces[i].(status := d.traces[i].status)
    {
    }
    forall i | 0 <= i < |d.traces| ensures StageOk(d, i) && LineageOk(d, i) {
      assert StageOk(db, i) && LineageOk(db, i);
    }
  }

  lemma BatchKeepsClaims(db: Db, d: Db, ids: seq<nat>)
    requires Inv(db) && BatchClaimed(db, d, ids)
    ensures ClaimsOk(d)
  {
    hide AccountsOk, OneActivePerUnit, OneFollowUp, LineageOk;
    forall k | 0 <= k < |ids| ensures ids[k] !in db.claims {
      assert StageOk(db, ids[k]);
    }
  }

  lemma BatchKeepsAccounts(db: Db, d: Db, ids: seq<nat>)
    requires Inv(db) && BatchClaimed(db, d, ids)
    ensures AccountsOk(d)
  {
    hide ClaimsOk, OneActivePerUnit, OneFollowUp, LineageOk, StageOk, SumCoalesced, SumUsage;
    UsageUnchanged(db, d);
    SumCoalescedSame(d.traces, db.traces);
  }

  // A stage moves on and tasks change; the traces stay.
  lemma StageMoves(db: Db, i: nat, d: Db)
    requires Inv(db) && i < |db.traces| && |d.stages| == |db.stages| && d.stages == db.stages[i := d.stages[i]]
    requires d == db.(stages := d.stages, tasks := d.tasks)
    requires !db.stages[i].Idle? && !d.stages[i].Idle? && StageOk(d, i) && (Decisive(db.stages[i]) ==> Decisive(d.stages[i]))
    ensures Inv(d)
  {
    hide SumCoalesced, SumUsage;
    forall j | 0 <= j < |d.traces| ensures StageOk(d, j) && LineageOk(d, j) {
      assert StageOk(db, j) && LineageOk(db, j);
    }
  }

  lemma FinalizeKeeps(db: Db, i: nat, run: Run)
    requires Inv(db) && Enabled(db, Finish(i, run))
    ensures Inv(Finalize(db, i, run))
  {
    hide SumCoalesced, SumUsage;
    var d := Finalize(db, i, run);
    assert StageOk(db, i);
    forall j | 0 <= j < |d.traces| ensures StageOk(d, j) && LineageOk(d, j) {
      assert StageOk(db, j) && LineageOk(db, j);
    }
    assert AccountsOk(d) by {
      SumCoalescedSame(d.traces, db.traces);
      forall agent ensures TotalOf(d, agent) == SumUsage(d.traces, agent) {
        SumUsageGain(db.traces, i, d.traces[i], agent);
      }
    }
  }

  lemma DecideKeeps(db: Db, i: nat, now: nat)
    requires Inv(db) && Enabled(db, DecideNext(i, now))
    ensures Inv(Decide(db, i, now))
  {
    var t, run := db.traces[i], db.stages[i].run;
    assert StageOk(db, i) && LineageOk(db, i);
    // The decision is recorded first: the wake it may make does not look at stages.
    var pre := db.(stages := db.stages[i := Decided(run, false)]);
    StageMoves(db, i, pre);
    assert forall j | 0 <= j < |db.traces| :: db.traces[j].retryOf != Some(i) by {
      forall j | 0 <= j < |db.traces| ensures db.traces[j].retryOf != Some(i) {
        assert LineageOk(db, j);
      }
    }
    hide Inv, Wake, IsRetryOf, IsContinuationOf;
    if run.outcome == Succeeded && t.task.Some? && run.liveness.Some? && run.liveness.value != Normal {
      ContinueKeeps(pre, db, i, run);
    } else if run.outcome == Failed {
      RetryKeeps(pre, db, i, run, now);
    }
  }

  lemma ContinueKeeps(pre: Db, db: Db, i: nat, run: Run)
    requires Inv(pre) && i < |db.traces| == |db.stages| && run.Ran? && LegalRun(run)
    requires pre == db.(stages := db.stages[i := Decided(run, false)])
    requires forall j | 0 <= j < |db.traces| :: db.traces[j].retryOf != Some(i)
    requires db.traces[i].status == Succeeded
    requires db.traces[i].task.Some? && run.liveness.Some? && run.outcome == Succeeded
    ensures var t := db.traces[i];
            Inv(Advance(DecideContinuation(db, i, t.task.value, t.agent, run.liveness.value, t.continuationAttempt).0,
                        i, Decided(run, false)))
  {
    var t := db.traces[i];
    var d := DecideContinuation(db, i, t.task.value, t.agent, run.liveness.value, t.continuationAttempt);
    var input := WakeInput(t.agent, t.task,
                           Some(ContinuationKey(t.task.value, i, run.liveness.value, t.continuationAttempt + 1)),
                           None, 0, t.continuationAttempt + 1, Some(i), 0);
    hide Wake, Inv;
    if d.0 != db {
      assert GoodInput(pre, input);
    }
    DecisionKeeps(pre, db, i, d.0, Decided(run, false), input);
  }

  lemma RetryKeeps(pre: Db, db: Db, i: nat, run: Run, now: nat)
    requires Inv(pre) && i < |db.traces| == |db.stages| && run.Ran? && LegalRun(run)
    requires pre == db.(stages := db.stages[i := Decided(run, false)])
    requires forall j | 0 <= j < |db.traces| :: db.traces[j].retryOf != Some(i)
    requires db.traces[i].status == Failed && run.outcome == Failed
    ensures var t := db.traces[i];
            var d := DecideRetry(db, now, i, t.task, t.agent, run.errorCode, t.failureRetryAttempt);
            Inv(Advance(d.0, i, Decided(run, d.1.enqueued)))
  {
    var t := db.traces[i];
    var d := DecideRetry(db, now, i, t.task, t.agent, run.errorCode, t.failureRetryAttempt);
    var delay := if t.failureRetryAttempt < 3 then RETRY_DELAYS_MS[t.failureRetryAttempt] else 0;
    var input := WakeInput(t.agent, t.task, Some(RetryKey(i, t.failureRetryAttempt + 1)), Some(now + delay),
                           t.failureRetryAttempt + 1, 0, Some(i), delay);
    hide Wake, Inv;
    if d.0 != db {
      assert GoodInput(pre, input);
    }
    DecisionKeeps(pre, db, i, d.0, Decided(run, d.1.enqueued), input);
  }

  lemma WakeIgnoresStages(db: Db, pre: Db, input: WakeInput)
    requires pre == db.(stages := pre.stages)
    ensures var w, d := Wake(pre, input).0, Wake(db, input).0;
            && w == d.(stages := w.stages)
            && w.stages == (if |d.traces| == |db.traces| then pre.stages else pre.stages + [Idle])
            && d.stages == (if |d.traces| == |db.traces| then db.stages else db.stages + [Idle])
  {
  }

  // Waking commutes with recording the decision.
  lemma DecisionKeeps(pre: Db, db: Db, i: nat, d: Db, stage: Stage, input: WakeInput)
    requires Inv(pre) && |db.stages| == |db.traces| && i < |db.stages| == |pre.stages| && stage.Decided?
    requires pre == db.(stages := db.stages[i := pre.stages[i]]) && StageOk(pre, i) && pre.stages[i].Decided?
    requires pre.stages[i].run == stage.run
    requires d == db || (d == Wake(db, input).0 && GoodInput(pre, input))
    ensures Inv(Advance(d, i, stage))
  {
    if d == db {
      AdvancedKeeps(pre, db, i, stage);
    } else {
      WokenKeeps(pre, db, i, d, stage, input);
    }
  }

  lemma AdvancedKeeps(pre: Db, db: Db, i: nat, stage: Stage)
    requires Inv(pre) && i < |db.stages| == |pre.stages| && stage.Decided?
    requires pre == db.(stages := db.stages[i := pre.stages[i]]) && StageOk(pre, i) && pre.stages[i].Decided?
    requires pre.stages[i].run == stage.run
    ensures Inv(Advance(db, i, stage))
  {
    var d := Advance(db, i, stage);
    assert |pre.traces| == |pre.stages| && d.stages == pre.stages[i := stage];
    hide Inv;
    StageMoves(pre, i, d);
  }

  lemma WokenKeeps(pre: Db, db: Db, i: nat, d: Db, stage: Stage, input: WakeInput)
    requires Inv(pre) && |db.stages| == |db.traces| && i < |db.stages| == |pre.stages| && stage.Decided?
    requires pre == db.(stages := db.stages[i := pre.stages[i]]) && StageOk(pre, i) && pre.stages[i].Decided?
    requires pre.stages[i].run == stage.run
    requires d == Wake(db, input).0 && GoodInput(pre, input)
    ensures Inv(Advance(d, i, stage))
  {
    WakeKeeps(pre, input);
    WakeIgnoresStages(db, pre, input);
    WakeKeepsRow(pre, input, i);
    hide Wake, GoodInput;
    var w := Wake(pre, input).0;
    assert |w.stages| == |w.traces| && StageOk(w, i);
    hide Inv, StageOk;
    assert Advance(d, i, stage) == w.(stages := w.stages[i := stage]);
    StillDecided(w, i, stage);
    StageMoves(w, i, Advance(d, i, stage));
  }

  lemma StillDecided(w: Db, i: nat, stage: Stage)
    requires i < |w.traces| == |w.stages| && StageOk(w, i) && w.stages[i].Decided? && stage.Decided? && w.stages[i].run == stage.run
    ensures StageOk(w.(stages := w.stages[i := stage]), i)
  {
  }

  lemma WakeKeepsRow(db: Db, input: WakeInput, i: nat)
    requires i < |db.traces| == |db.stages|
    ensures var w := Wake(db, input).0;
            i < |w.traces| && i < |w.stages| && w.stages[i] == db.stages[i] && w.traces[i].status == db.traces[i].status
  {
  }

  lemma NextKeeps(db: Db, s: Step)
    requires Inv(db) && Enabled(db, s)
    ensures Inv(Next(db, s))
  {
    hide SumCoalesced, SumUsage, Wake, Finalize, Decide, Claim;
    match s {
      case WakeFrom(input) => WakeKeeps(db, input);
      case Tick(now, limit) => ClaimKeeps(db, now, limit);
      case Start(i) => assert StageOk(db, i); StageMoves(db, i, Next(db, s));
      case Finish(i, run) => FinalizeKeeps(db, i, run);
      case SyncTask(i) => assert StageOk(db, i); StageMoves(db, i, Next(db, s));
      case DecideNext(i, now) => DecideKeeps(db, i, now);
      case SettleTask(i) => assert StageOk(db, i); StageMoves(db, i, Next(db, s));
    }
  }

  lemma {:induction false} ExecuteKeeps(agents: set<AgentId>, tasks: map<TaskId, Task>, steps: seq<Step>)
    ensures Inv(Execute(Empty(agents, tasks), steps))
  {
    if steps != [] {
      ExecuteKeeps(agents, tasks, steps[..|steps| - 1]);
      var d := Execute(Empty(agents, tasks), steps[..|steps| - 1]);
      hide Inv;
      if Enabled(d, steps[|steps| - 1]) {
        NextKeeps(d, steps[|steps| - 1]);
      }
    }
  }
}
