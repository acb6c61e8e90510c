/** What each step of the worker writes on the card of a task, and what a card never loses. */
module WorkerCards {
  import opened Text
  import opened WorkerState
  import opened WorkerRuns
  import opened WorkerLaws

  predicate BlankParagraph(b: Block) {
    b.Paragraph? && Trim(b.text) == ""
  }

  // One block is put at the end, in place of a blank paragraph there.
  predicate Appends(before: seq<Block>, after: seq<Block>, b: Block) {
    if before != [] && BlankParagraph(before[|before| - 1]) then after == before[..|before| - 1] + [b]
    else after == before + [b]
  }

  // The trace's run succeeded, with something to show.
  predicate ShowsSuccess(run: Run) {
    run.Ran? && run.outcome == Succeeded && !run.reply.blank && (run.liveness.None? || run.liveness.value == Normal)
  }

  predicate ShowsFailure(s: Stage) {
    s.Decided? && !s.enqueued && s.run.Ran? && s.run.outcome in {Failed, TimedOut, Cancelled}
  }

  function CodeOr(code: Option<string>, otherwise: string): Option<string> {
    if code.Some? then code else Some(otherwise)
  }

  // The card of task t after a step that works on it.
  ghost predicate CardStep(db: Db, s: Step, t: TaskId, a: Task, b: Task)
    requires Enabled(db, s) && (s.Start? || s.SyncTask? || s.SettleTask?)
  {
    if db.traces[s.i].task != Some(t) then b == a
    else if s.Start? then
      b == if a.status == Todo then a.(status := InProgress, errorCode := None) else a
    else
      var run := db.stages[s.i].run;
      if s.SyncTask? && ShowsSuccess(run) then
        && Appends(a.blocks, b.blocks, AgentResult(s.i, false))
        && b == a.(blocks := b.blocks, status := b.status)
        && b.status == (if a.status !in {Todo, InProgress} then a.status
                        else if run.reply.delegates then InProgress else if run.reply.review then Review else Done)
      else if s.SettleTask? && ShowsFailure(db.stages[s.i]) && a.status != Done then
        && Appends(a.blocks, b.blocks, AgentResult(s.i, true))
        && match run.outcome
           case Failed => b == a.(blocks := b.blocks, status := Error, errorCode := CodeOr(run.errorCode, "trace_failed"))
           case TimedOut => b == a.(blocks := b.blocks, status := Error, errorCode := CodeOr(run.errorCode, "trace_timed_out"))
           case _ => b == a.(blocks := b.blocks, archived := true)
      else b == a
  }

  lemma WithBlockAppends(blocks: seq<Block>, b: Block)
    ensures Appends(blocks, WithBlock(blocks, b), b)
  {
    hide Trim;
  }

  /** What a step writes on a card: a start, a success, a failure; no other step touches one. */
  lemma CardChanges(db: Db, s: Step, t: TaskId)
    requires Enabled(db, s) && t in db.tasks
    ensures t in Next(db, s).tasks
    ensures var a, b := db.tasks[t], Next(db, s).tasks[t];
            if s.Start? || s.SyncTask? || s.SettleTask? then CardStep(db, s, t, a, b) else b == a
  {
    if s.WakeFrom? {
      WakeKeepsTasks(db, s.input);
      hide Wake;
    } else if s.DecideNext? {
      DecideKeepsTasks(db, s.i, s.now);
      hide Decide;
    } else if s.Tick? {
      hide Oldest;
    } else if s.SyncTask? {
      SyncCard(db, s.i, t);
      hide Next;
    } else if s.SettleTask? {
      SettleCard(db, s.i, t);
      hide Next;
    }
  }

  lemma SyncCard(db: Db, i: nat, t: TaskId)
    requires Enabled(db, SyncTask(i)) && t in db.tasks
    ensures t in Next(db, SyncTask(i)).tasks && CardStep(db, SyncTask(i), t, db.tasks[t], Next(db, SyncTask(i)).tasks[t])
  {
    WithBlockAppends(db.tasks[t].blocks, AgentResult(i, false));
    hide WithBlock, Appends;
  }

  lemma SettleCard(db: Db, i: nat, t: TaskId)
    requires Enabled(db, SettleTask(i)) && t in db.tasks
    ensures t in Next(db, SettleTask(i)).tasks && CardStep(db, SettleTask(i), t, db.tasks[t], Next(db, SettleTask(i)).tasks[t])
  {
    WithBlockAppends(db.tasks[t].blocks, AgentResult(i, true));
    hide WithBlock, Appends;
  }

  // ---- what a card shows only grows --------------------------------------------

  // The blocks of a card without blank paragraphs.
  function Visible(blocks: seq<Block>): seq<Block> {
    if blocks == [] then []
    else
      var n := |blocks| - 1;
      Visible(blocks[..n]) + if BlankParagraph(blocks[n]) then [] else [blocks[n]]
  }

  lemma VisibleSnoc(blocks: seq<Block>, b: Block)
    ensures Visible(blocks + [b]) == Visible(blocks) + if BlankParagraph(b) then [] else [b]
  {
    assert (blocks + [b])[..|blocks|] == blocks;
  }

  lemma AppendsShows(before: seq<Block>, after: seq<Block>, b: Block)
    requires Appends(before, after, b) && b.AgentResult?
    ensures Visible(after) == Visible(before) + [b]
  {
    hide Trim;
    VisibleSnoc(before, b);
    if before != [] {
      VisibleSnoc(before[..|before| - 1], b);
    }
  }

  lemma StepShowsMore(db: Db, s: Step, t: TaskId)
    requires Enabled(db, s) && t in db.tasks
    ensures t in Next(db, s).tasks && Visible(db.tasks[t].blocks) <= Visible(Next(db, s).tasks[t].blocks)
  {
    CardChanges(db, s, t);
    var a, b := db.tasks[t].blocks, Next(db, s).tasks[t].blocks;
    if a != b {
      assert Appends(a, b, AgentResult(s.i, !s.SyncTask?));
      AppendsShows(a, b, AgentResult(s.i, !s.SyncTask?));
    }
    hide Next, Enabled, Visible;
  }

  /** In every run what a card shows stays, in order, and what the worker adds comes after it. */
  lemma {:induction false} CardsOnlyGrow(db: Db, steps: seq<Step>, t: TaskId)
    requires t in db.tasks
    ensures t in Execute(db, steps).tasks && Visible(db.tasks[t].blocks) <= Visible(Execute(db, steps).tasks[t].blocks)
    decreases |steps|
  {
    if steps != [] {
      var d := Execute(db, steps[..|steps| - 1]);
      CardsOnlyGrow(db, steps[..|steps| - 1], t);
      hide Next, Visible;
      if Enabled(d, steps[|steps| - 1]) {
        StepShowsMore(d, steps[|steps| - 1], t);
      }
    }
  }
}
