/** Delegation: the DELEGATE blocks of a worker reply become child tasks, each at most once per teammate. */
module Delegation {
  import opened Text
  import opened Markers

  type AgentId = string
  type CompanyId = string
  type TaskId = nat

  // A decoded body; None for a field that is absent or no string.
  datatype Payload = Payload(target: Option<string>, title: Option<string>, description: Option<string>, criteria: Option<string>)

  // A row of the tasks table; its id is its index, in order of creation.
  datatype Task = Task(company: CompanyId, number: nat, title: string, text: string, assignee: Option<AgentId>,
                       parent: Option<TaskId>, createdBy: Option<AgentId>, criteria: Option<string>)

  datatype Reason = InvalidPayload | TargetNotSubordinate | TargetAlreadyDelegated
  datatype Verdict = Delegated(child: TaskId) | Ignored(reason: Reason)
  datatype Audit = Audit(task: TaskId, actor: AgentId, verdict: Verdict, payload: Option<Payload>)

  datatype Ctx = Ctx(company: CompanyId, agent: AgentId, parent: Option<TaskId>, subordinates: seq<AgentId>)
  datatype Db = Db(tasks: seq<Task>, audits: seq<Audit>, queue: seq<TaskId>)

  datatype Delegation = Delegation(child: TaskId, target: AgentId, title: string)
  datatype Report = Report(delegated: seq<Delegation>, ignored: seq<Reason>)

  predicate HexDigit(c: char) {
    '0' <= c <= '9' || 'a' <= Lower(c) <= 'f'
  }

  predicate IsUuid(s: string) {
    |s| == 36 && forall i | 0 <= i < 36 :: if i in {8, 13, 18, 23} then s[i] == '-' else HexDigit(s[i])
  }

  function Trimmed(field: Option<string>): string {
    if field.Some? then Trim(field.value) else ""
  }

  predicate ValidPayload(p: Payload) {
    p.target.Some? && IsUuid(p.target.value) && Trimmed(p.title) != "" && Trimmed(p.description) != ""
  }

  // ---- task numbers ------------------------------------------------------------

  function MaxNumber(tasks: seq<Task>, company: CompanyId): (m: nat)
    ensures forall i | 0 <= i < |tasks| && tasks[i].company == company :: tasks[i].number <= m
    ensures m == 0 || exists i :: 0 <= i < |tasks| && tasks[i].company == company && tasks[i].number == m
  {
    if tasks == [] then 0
    else
      var m := MaxNumber(tasks[..|tasks| - 1], company);
      var last := tasks[|tasks| - 1];
      if last.company == company && last.number > m then last.number else m
  }

  // The insert that delegation and the routine scheduler share, under the company's lock.
  function InsertTask(tasks: seq<Task>, t: Task): seq<Task> {
    tasks + [t.(number := MaxNumber(tasks, t.company) + 1)]
  }

  // ---- one block ---------------------------------------------------------------

  predicate HasChildFor(tasks: seq<Task>, parent: TaskId, target: AgentId) {
    exists i :: 0 <= i < |tasks| && tasks[i].parent == Some(parent) && tasks[i].assignee == Some(target)
  }

  function Judge(tasks: seq<Task>, ctx: Ctx, body: Option<Payload>): Verdict {
    if body.None? || !ValidPayload(body.value) then Ignored(InvalidPayload)
    else
      var target := body.value.target.value;
      if target !in ctx.subordinates then Ignored(TargetNotSubordinate)
      else if ctx.parent.Some? && HasChildFor(tasks, ctx.parent.value, target) then Ignored(TargetAlreadyDelegated)
      else Delegated(|tasks|)
  }

  function ChildOf(ctx: Ctx, p: Payload): Task
    requires ValidPayload(p)
  {
    Task(ctx.company, 0, Trimmed(p.title), Trimmed(p.description), p.target, ctx.parent, Some(ctx.agent),
         if Trimmed(p.criteria) == "" then None else Some(Trimmed(p.criteria)))
  }

  function Handle(db: Db, ctx: Ctx, body: Option<Payload>): Db {
    var v := Judge(db.tasks, ctx, body);
    var audits := if ctx.parent.None? then db.audits else db.audits + [Audit(ctx.parent.value, ctx.agent, v, body)];
    match v
    case Ignored(_) => db.(audits := audits)
    case Delegated(child) => Db(InsertTask(db.tasks, ChildOf(ctx, body.value)), audits, db.queue + [child])
  }

  function Noted(report: Report, v: Verdict, body: Option<Payload>): Report
    requires v.Delegated? ==> body.Some? && ValidPayload(body.value)
  {
    match v
    case Ignored(reason) => report.(ignored := report.ignored + [reason])
    case Delegated(child) =>
      report.(delegated := report.delegated + [Delegation(child, body.value.target.value, Trimmed(body.value.title))])
  }

  const DELEGATE: string := "DELEGATE"

  function Bodies(blocks: seq<ActionBlock<Payload>>): seq<Option<Payload>> {
    if blocks == [] then []
    else
      var init := Bodies(blocks[..|blocks| - 1]);
      if blocks[|blocks| - 1].token == DELEGATE then init + [blocks[|blocks| - 1].body] else init
  }

  function HandleAll(db: Db, ctx: Ctx, bodies: seq<Option<Payload>>): Db {
    if bodies == [] then db else Handle(HandleAll(db, ctx, bodies[..|bodies| - 1]), ctx, bodies[|bodies| - 1])
  }

  function ReportAll(db: Db, ctx: Ctx, bodies: seq<Option<Payload>>): Report {
    if bodies == [] then Report([], [])
    else
      var n := |bodies| - 1;
      Noted(ReportAll(db, ctx, bodies[..n]), Judge(HandleAll(db, ctx, bodies[..n]).tasks, ctx, bodies[n]), bodies[n])
  }

  // ---- the loop ----------------------------------------------------------------

  class TaskTable {
    var tasks: seq<Task>
    var audits: seq<Audit>
    var queue: seq<TaskId>

    constructor (tasks: seq<Task>)
      ensures View() == Db(tasks, [], [])
    {
      this.tasks, audits, queue := tasks, [], [];
    }

    function View(): Db
      reads this
    {
      Db(tasks, audits, queue)
    }

    method EmitAudit(ctx: Ctx, v: Verdict, payload: Option<Payload>)
      modifies this`audits
      ensures audits == if ctx.parent.None? then old(audits) else old(audits) + [Audit(ctx.parent.value, ctx.agent, v, payload)]
    {
      if ctx.parent.None? { return; }
      audits := audits + [Audit(ctx.parent.value, ctx.agent, v, payload)];
    }

    method CreateTask(t: Task) returns (id: TaskId)
      modifies this`tasks
      ensures tasks == InsertTask(old(tasks), t) && id == |old(tasks)|
    {
      id := |tasks|;
      tasks := tasks + [t.(number := MaxNumber(tasks, t.company) + 1)];
    }

    /** `decode` stands for the JSON parser; `blocks` are the blocks of the reply. */
    method ExecuteWorkerDelegations(reply: string, ctx: Ctx, decode: string -> Option<Payload>)
      returns (report: Report, ghost blocks: seq<ActionBlock<Payload>>)
      modifies this
      ensures Extracted(reply, 0, Bare(blocks))
      ensures forall i | 0 <= i < |blocks| :: blocks[i].body == decode(Unfenced(blocks[i].raw))
      ensures View() == HandleAll(old(View()), ctx, Bodies(blocks))
      ensures report == ReportAll(old(View()), ctx, Bodies(blocks))
    {
      hide Extracted, Unfenced, MaxNumber, Trim, IsUuid, Bare;
      report := Report([], []);
      var found := ExtractActionBlocks(reply, decode);
      blocks := found;
      ghost var was := View();
      var i := 0;
      while i < |found|
        invariant i <= |found|
        invariant View() == HandleAll(was, ctx, Bodies(found[..i]))
        invariant report == ReportAll(was, ctx, Bodies(found[..i]))
      {
        var block := found[i];
        i := i + 1;
        BodiesSnoc(found, i);
        if block.token != DELEGATE { continue; }
        var verdict := DelegateOne(ctx, block.body);
        report := Noted(report, verdict, block.body);
      }
      assert found[..i] == found;
    }

    method DelegateOne(ctx: Ctx, body: Option<Payload>) returns (v: Verdict)
      modifies this
      ensures View() == Handle(old(View()), ctx, body) && v == Judge(old(tasks), ctx, body)
      ensures v.Delegated? ==> body.Some? && ValidPayload(body.value)
    {
      hide MaxNumber, Trim, IsUuid, HasChildFor;
      if body.None? || !ValidPayload(body.value) {
        v := Ignored(InvalidPayload);
        EmitAudit(ctx, v, body);
        return;
      }
      var target := body.value.target.value;
      if target !in ctx.subordinates {
        v := Ignored(TargetNotSubordinate);
        EmitAudit(ctx, v, body);
        return;
      }
      if ctx.parent.Some? && HasChildFor(tasks, ctx.parent.value, target) {
        v := Ignored(TargetAlreadyDelegated);
        EmitAudit(ctx, v, body);
        return;
      }
      var criteria := if Trimmed(body.value.criteria) == "" then None else Some(Trimmed(body.value.criteria));
      var child := CreateTask(Task(ctx.company, 0, Trimmed(body.value.title), Trimmed(body.value.description), Some(target),
                                   ctx.parent, Some(ctx.agent), criteria));
      queue := queue + [child];
      v := Delegated(child);
      EmitAudit(ctx, v, body);
    }
  }

  lemma BodiesSnoc(blocks: seq<ActionBlock<Payload>>, i: nat)
    requires 0 < i <= |blocks|
    ensures var before, b := Bodies(blocks[..i - 1]), blocks[i - 1];
            Bodies(blocks[..i]) == if b.token == DELEGATE then before + [b.body] else before
    ensures forall db, ctx: Ctx, bodies: seq<Option<Payload>>, body ::
              && HandleAll(db, ctx, bodies + [body]) == Handle(HandleAll(db, ctx, bodies), ctx, body)
              && ReportAll(db, ctx, bodies + [body])
                 == Noted(ReportAll(db, ctx, bodies), Judge(HandleAll(db, ctx, bodies).tasks, ctx, body), body)
  {
    assert blocks[..i][..i - 1] == blocks[..i - 1];
    forall db, ctx: Ctx, bodies: seq<Option<Payload>>, body
      ensures && HandleAll(db, ctx, bodies + [body]) == Handle(HandleAll(db, ctx, bodies), ctx, body)
              && ReportAll(db, ctx, bodies + [body])
                 == Noted(ReportAll(db, ctx, bodies), Judge(HandleAll(db, ctx, bodies).tasks, ctx, body), body)
    {
      assert (bodies + [body])[..|bodies|] == bodies;
    }
  }

  // ---- every block counts once -------------------------------------------------

  /** Each DELEGATE block is either delegated or ignored, is audited once if there is a parent, and queued once if delegated. */
  lemma {:induction false} BlocksAreCounted(db: Db, ctx: Ctx, bodies: seq<Option<Payload>>)
    ensures var d, r := HandleAll(db, ctx, bodies), ReportAll(db, ctx, bodies);
            && |r.delegated| + |r.ignored| == |bodies|
            && |d.tasks| == |db.tasks| + |r.delegated|
            && |d.audits| == |db.audits| + (if ctx.parent.Some? then |bodies| else 0)
            && d.audits[..|db.audits|] == db.audits
            && d.queue == db.queue + Children(r.delegated)
            && (forall i | 0 <= i < |r.delegated| :: r.delegated[i].child == |db.tasks| + i)
    decreases |bodies|
  {
    hide Judge, InsertTask, MaxNumber;
    if bodies != [] {
      var n := |bodies| - 1;
      BlocksAreCounted(db, ctx, bodies[..n]);
      StepCounts(HandleAll(db, ctx, bodies[..n]), ctx, bodies[n]);
      ChildrenSnoc(ReportAll(db, ctx, bodies[..n]).delegated);
    }
  }

  function Children(delegated: seq<Delegation>): (r: seq<TaskId>)
    ensures |r| == |delegated| && forall i | 0 <= i < |r| :: r[i] == delegated[i].child
  {
    seq(|delegated|, i requires 0 <= i < |delegated| => delegated[i].child)
  }

  lemma ChildrenSnoc(delegated: seq<Delegation>)
    ensures forall x :: Children(delegated + [x]) == Children(delegated) + [x.child]
  {
  }

  lemma StepCounts(db: Db, ctx: Ctx, body: Option<Payload>)
    ensures var d, v := Handle(db, ctx, body), Judge(db.tasks, ctx, body);
            && |d.tasks| == |db.tasks| + (if v.Delegated? then 1 else 0)
            && d.audits == db.audits + (if ctx.parent.Some? then [Audit(ctx.parent.value, ctx.agent, v, body)] else [])
            && d.queue == db.queue + (if v.Delegated? then [|db.tasks|] else [])
            && (v.Delegated? ==> v.child == |db.tasks|)
            && db.tasks <= d.tasks
  {
    hide MaxNumber;
  }

  // ---- what any sequence of replies keeps --------------------------------------

  // Rows of one parent go to different teammates.
  ghost predicate NoSharedAssignee(tasks: seq<Task>) {
    forall i, j | 0 <= i < j < |tasks| && tasks[i].parent.Some? && tasks[i].parent == tasks[j].parent
                  && tasks[i].assignee.Some? ::
      tasks[i].assignee != tasks[j].assignee
  }

  // A company's numbers grow in order of creation.
  ghost predicate Numbered(tasks: seq<Task>) {
    forall i, j | 0 <= i < j < |tasks| && tasks[i].company == tasks[j].company :: tasks[i].number < tasks[j].number
  }

  // One block of some reply, or a routine's wrapper task.
  datatype Step = Emitted(ctx: Ctx, body: Option<Payload>) | Wrapper(t: Task)

  function Next(db: Db, s: Step): Db {
    match s
    case Emitted(ctx, body) => Handle(db, ctx, body)
    case Wrapper(t) => db.(tasks := InsertTask(db.tasks, t.(parent := None)))
  }

  function Execute(db: Db, steps: seq<Step>): Db {
    if steps == [] then db else Next(Execute(db, steps[..|steps| - 1]), steps[|steps| - 1])
  }

  lemma InsertKeeps(tasks: seq<Task>, t: Task)
    requires NoSharedAssignee(tasks) && Numbered(tasks)
    requires t.parent.Some? && t.assignee.Some? ==> !HasChildFor(tasks, t.parent.value, t.assignee.value)
    ensures NoSharedAssignee(InsertTask(tasks, t)) && Numbered(InsertTask(tasks, t))
    ensures tasks <= InsertTask(tasks, t)
  {
    hide MaxNumber;
    var all := InsertTask(tasks, t);
    assert forall i | 0 <= i < |tasks| :: all[i] == tasks[i];
  }

  lemma StepKeeps(db: Db, s: Step)
    requires NoSharedAssignee(db.tasks) && Numbered(db.tasks)
    ensures var d := Next(db, s); NoSharedAssignee(d.tasks) && Numbered(d.tasks) && db.tasks <= d.tasks
  {
    hide InsertTask, NoSharedAssignee, Numbered, HasChildFor;
    match s {
      case Emitted(ctx, body) =>
        if Judge(db.tasks, ctx, body).Delegated? {
          InsertKeeps(db.tasks, ChildOf(ctx, body.value));
        }
      case Wrapper(t) => InsertKeeps(db.tasks, t.(parent := None));
    }
  }

  /** However replies and routines interleave, no two children of a parent share an assignee, and numbers are unique and grow. */
  lemma {:induction false} RunsKeep(db: Db, steps: seq<Step>)
    requires NoSharedAssignee(db.tasks) && Numbered(db.tasks)
    ensures var d := Execute(db, steps); NoSharedAssignee(d.tasks) && Numbered(d.tasks) && db.tasks <= d.tasks
    decreases |steps|
  {
    hide Next, NoSharedAssignee, Numbered;
    if steps != [] {
      RunsKeep(db, steps[..|steps| - 1]);
      StepKeeps(Execute(db, steps[..|steps| - 1]), steps[|steps| - 1]);
    }
  }

  function ChildRows(tasks: seq<Task>, parent: TaskId): set<nat> {
    set i: nat | i < |tasks| && tasks[i].parent == Some(parent)
  }

  // Children of `parent` are all assigned, and to members of the team.
  ghost predicate WithinTeam(tasks: seq<Task>, parent: TaskId, team: set<AgentId>) {
    forall i | i in ChildRows(tasks, parent) :: tasks[i].assignee.Some? && tasks[i].assignee.value in team
  }

  lemma {:induction false} InjectionIsSmaller(a: set<nat>, tasks: seq<Task>, team: set<AgentId>)
    requires forall i | i in a :: i < |tasks| && tasks[i].assignee.Some? && tasks[i].assignee.value in team
    requires forall i, j | i in a && j in a && i != j :: tasks[i].assignee != tasks[j].assignee
    ensures |a| <= |team|
    decreases |a|
  {
    if a != {} {
      var i :| i in a;
      InjectionIsSmaller(a - {i}, tasks, team - {tasks[i].assignee.value});
    }
  }

  lemma {:induction false} TeamBounds(db: Db, steps: seq<Step>, parent: TaskId, team: set<AgentId>)
    requires NoSharedAssignee(db.tasks) && Numbered(db.tasks) && WithinTeam(db.tasks, parent, team)
    requires forall s | s in steps && s.Emitted? && s.ctx.parent == Some(parent) :: forall a | a in s.ctx.subordinates :: a in team
    ensures WithinTeam(Execute(db, steps).tasks, parent, team)
    decreases |steps|
  {
    if steps != [] {
      var n := |steps| - 1;
      TeamBounds(db, steps[..n], parent, team);
      var d, s := Execute(db, steps[..n]), steps[n];
      assert s in steps;
      hide MaxNumber, HasChildFor;
      forall i | i in ChildRows(Next(d, s).tasks, parent)
        ensures Next(d, s).tasks[i].assignee.Some? && Next(d, s).tasks[i].assignee.value in team
      {
        assert i < |d.tasks| ==> i in ChildRows(d.tasks, parent);
      }
    }
  }

  /** So a parent never has more children than its emitter has subordinates. */
  lemma ChildrenFitTheTeam(db: Db, steps: seq<Step>, parent: TaskId, team: set<AgentId>)
    requires NoSharedAssignee(db.tasks) && Numbered(db.tasks) && ChildRows(db.tasks, parent) == {}
    requires forall s | s in steps && s.Emitted? && s.ctx.parent == Some(parent) :: forall a | a in s.ctx.subordinates :: a in team
    ensures |ChildRows(Execute(db, steps).tasks, parent)| <= |team|
  {
    RunsKeep(db, steps);
    TeamBounds(db, steps, parent, team);
    var tasks := Execute(db, steps).tasks;
    hide Execute, Numbered;
    assert forall i, j | i in ChildRows(tasks, parent) && j in ChildRows(tasks, parent) && i != j :: tasks[i].assignee != tasks[j].assignee;
    InjectionIsSmaller(ChildRows(tasks, parent), tasks, team);
  }

  // ---- a reply emitted twice ---------------------------------------------------

  // A block that is handled a second time cannot delegate.
  predicate Spent(tasks: seq<Task>, ctx: Ctx, body: Option<Payload>) {
    !Judge(tasks, ctx, body).Delegated?
  }

  lemma SpentStays(a: seq<Task>, b: seq<Task>, ctx: Ctx, body: Option<Payload>)
    requires a <= b && Spent(a, ctx, body)
    ensures Spent(b, ctx, body)
  {
    if body.Some? && ValidPayload(body.value) && ctx.parent.Some? && HasChildFor(a, ctx.parent.value, body.value.target.value) {
      var i :| 0 <= i < |a| && a[i].parent == ctx.parent && a[i].assignee == Some(body.value.target.value);
      assert b[i] == a[i];
    }
  }

  lemma HandledIsSpent(db: Db, ctx: Ctx, body: Option<Payload>)
    requires ctx.parent.Some?
    ensures Spent(Handle(db, ctx, body).tasks, ctx, body)
  {
    hide MaxNumber;
    if Judge(db.tasks, ctx, body).Delegated? {
      var d := Handle(db, ctx, body);
      assert d.tasks[|db.tasks|].parent == ctx.parent && d.tasks[|db.tasks|].assignee == Some(body.value.target.value);
    }
  }

  lemma {:induction false} AllAreSpent(db: Db, ctx: Ctx, bodies: seq<Option<Payload>>)
    requires ctx.parent.Some?
    ensures db.tasks <= HandleAll(db, ctx, bodies).tasks
    ensures forall b | b in bodies :: Spent(HandleAll(db, ctx, bodies).tasks, ctx, b)
    decreases |bodies|
  {
    hide Spent, Handle;
    if bodies != [] {
      var n := |bodies| - 1;
      AllAreSpent(db, ctx, bodies[..n]);
      var before := HandleAll(db, ctx, bodies[..n]);
      StepCounts(before, ctx, bodies[n]);
      HandledIsSpent(before, ctx, bodies[n]);
      forall b | b in bodies ensures Spent(HandleAll(db, ctx, bodies).tasks, ctx, b) {
        if b != bodies[n] {
          assert b in bodies[..n];
          SpentStays(before.tasks, Handle(before, ctx, bodies[n]).tasks, ctx, b);
        }
      }
    }
  }

  lemma {:induction false} SpentBlocksDoNothing(db: Db, ctx: Ctx, bodies: seq<Option<Payload>>)
    requires forall b | b in bodies :: Spent(db.tasks, ctx, b)
    ensures HandleAll(db, ctx, bodies).tasks == db.tasks && HandleAll(db, ctx, bodies).queue == db.queue
    ensures ReportAll(db, ctx, bodies).delegated == []
    decreases |bodies|
  {
    hide Judge;
    if bodies != [] {
      var n := |bodies| - 1;
      SpentBlocksDoNothing(db, ctx, bodies[..n]);
      assert bodies[n] in bodies;
    }
  }

  /** A reply emitted again under the same parent, whatever happened in between, creates no task and queues nothing. */
  lemma ReEmissionIsHarmless(db: Db, ctx: Ctx, bodies: seq<Option<Payload>>, between: seq<Step>)
    requires ctx.parent.Some? && NoSharedAssignee(db.tasks) && Numbered(db.tasks)
    ensures var later := Execute(HandleAll(db, ctx, bodies), between);
            && HandleAll(later, ctx, bodies).tasks == later.tasks
            && HandleAll(later, ctx, bodies).queue == later.queue
            && ReportAll(later, ctx, bodies).delegated == []
  {
    var once := HandleAll(db, ctx, bodies);
    AllAreSpent(db, ctx, bodies);
    HandleAllKeeps(db, ctx, bodies);
    RunsKeep(once, between);
    var later := Execute(once, between);
    hide Spent, HandleAll, ReportAll, Execute, NoSharedAssignee, Numbered;
    forall b | b in bodies ensures Spent(later.tasks, ctx, b) {
      SpentStays(once.tasks, later.tasks, ctx, b);
    }
    SpentBlocksDoNothing(later, ctx, bodies);
  }

  lemma {:induction false} HandleAllKeeps(db: Db, ctx: Ctx, bodies: seq<Option<Payload>>)
    requires NoSharedAssignee(db.tasks) && Numbered(db.tasks)
    ensures var d := HandleAll(db, ctx, bodies); NoSharedAssignee(d.tasks) && Numbered(d.tasks)
    decreases |bodies|
  {
    hide Handle, NoSharedAssignee, Numbered;
    if bodies != [] {
      var n := |bodies| - 1;
      HandleAllKeeps(db, ctx, bodies[..n]);
      StepKeeps(HandleAll(db, ctx, bodies[..n]), Emitted(ctx, bodies[n]));
    }
  }

  /** Without a parent there is no guard: a valid block repeated is a task repeated. */
  lemma OrphansRepeat(db: Db, ctx: Ctx, p: Payload)
    requires ctx.parent.None? && ValidPayload(p) && p.target.value in ctx.subordinates
    ensures |HandleAll(db, ctx, [Some(p), Some(p)]).tasks| == |db.tasks| + 2
  {
    var twice := [Some(p), Some(p)];
    assert twice[..1] == [Some(p)] && [Some(p)][..0] == [];
    hide ValidPayload, MaxNumber;
    assert HandleAll(db, ctx, []) == db;
    assert HandleAll(db, ctx, [Some(p)]) == Handle(db, ctx, Some(p));
  }
}
