/** What becomes of every DELEGATE block of a reply, told from the rows there were and the blocks before it. */
module DelegationOutcomes {
  import opened Text
  import opened Delegation

  // A body with a target, a title and a description.
  predicate Complete(body: Option<Payload>) {
    && body.Some? && body.value.target.Some? && IsUuid(body.value.target.value)
    && body.value.title.Some? && Trim(body.value.title.value) != ""
    && body.value.description.Some? && Trim(body.value.description.value) != ""
  }

  // A complete block for a teammate.
  predicate Proper(ctx: Ctx, body: Option<Payload>) {
    Complete(body) && body.value.target.value in ctx.subordinates
  }

  ghost predicate HasRow(tasks: seq<Task>, parent: TaskId, target: AgentId) {
    exists t :: t in tasks && t.parent == Some(parent) && t.assignee == Some(target)
  }

  // The teammate has a child already: before the reply, or by an earlier block of it.
  ghost predicate Served(tasks: seq<Task>, ctx: Ctx, earlier: seq<Option<Payload>>, target: AgentId) {
    && ctx.parent.Some?
    && (HasRow(tasks, ctx.parent.value, target) || exists b :: b in earlier && Proper(ctx, b) && b.value.target.value == target)
  }

  // Why a block after these earlier ones is ignored, if it is.
  ghost function Defect(tasks: seq<Task>, ctx: Ctx, earlier: seq<Option<Payload>>, body: Option<Payload>): Option<Reason> {
    if !Complete(body) then Some(InvalidPayload)
    else if body.value.target.value !in ctx.subordinates then Some(TargetNotSubordinate)
    else if Served(tasks, ctx, earlier, body.value.target.value) then Some(TargetAlreadyDelegated)
    else None
  }

  // The child a block asks for: its title, description and criteria, trimmed, from this emitter, under this parent.
  ghost predicate IsChild(t: Task, ctx: Ctx, p: Payload)
    requires Complete(Some(p))
  {
    && t.company == ctx.company && t.parent == ctx.parent && t.createdBy == Some(ctx.agent)
    && t.assignee == p.target && t.title == Trim(p.title.value) && t.text == Trim(p.description.value)
    && t.criteria == (if p.criteria.Some? && Trim(p.criteria.value) != "" then Some(Trim(p.criteria.value)) else None)
  }

  // The number after the company's highest, from 1 on.
  ghost predicate IsNextNumber(tasks: seq<Task>, company: CompanyId, n: nat) {
    && (forall t | t in tasks && t.company == company :: t.number < n)
    && (n == 1 || exists t :: t in tasks && t.company == company && t.number + 1 == n)
  }

  lemma ValidIsComplete(body: Option<Payload>)
    ensures body.Some? && ValidPayload(body.value) <==> Complete(body)
  {
    hide IsUuid;
    assert body.Some? ==> (Trimmed(body.value.title) != "" <==> body.value.title.Some? && Trim(body.value.title.value) != "");
    assert body.Some? ==> (Trimmed(body.value.description) != "" <==> body.value.description.Some? && Trim(body.value.description.value) != "");
    hide Trim;
  }

  lemma RowIsChild(tasks: seq<Task>, parent: TaskId, target: AgentId)
    ensures HasChildFor(tasks, parent, target) <==> HasRow(tasks, parent, target)
  {
    if HasRow(tasks, parent, target) {
      var t :| t in tasks && t.parent == Some(parent) && t.assignee == Some(target);
      var i :| 0 <= i < |tasks| && tasks[i] == t;
    }
  }

  // What one block does to the table, given why it is ignored, if it is.
  ghost predicate BlockStep(db: Db, ctx: Ctx, body: Option<Payload>, defect: Option<Reason>, d: Db, child: TaskId) {
    var verdict := if defect.Some? then Ignored(defect.value) else Delegated(child);
    && d.audits == db.audits + (if ctx.parent.Some? then [Audit(ctx.parent.value, ctx.agent, verdict, body)] else [])
    && (defect.Some? ==> d.tasks == db.tasks && d.queue == db.queue)
    && (defect.None? ==>
          && Complete(body) && child == |db.tasks| && |d.tasks| == |db.tasks| + 1 && db.tasks <= d.tasks
          && IsChild(d.tasks[child], ctx, body.value) && IsNextNumber(db.tasks, ctx.company, d.tasks[child].number)
          && d.queue == db.queue + [child])
  }

  /**
   One block: a valid block for a teammate who has no child under the parent yet creates, queues and audits exactly one
   child, as the block says; any other creates nothing and is audited with the reason its defect calls for.
   */
  lemma BlockMeans(db: Db, ctx: Ctx, body: Option<Payload>)
    ensures BlockStep(db, ctx, body, Defect(db.tasks, ctx, [], body), Handle(db, ctx, body), |db.tasks|)
  {
    ValidIsComplete(body);
    if Complete(body) && ctx.parent.Some? {
      RowIsChild(db.tasks, ctx.parent.value, body.value.target.value);
    }
    hide Trim, IsUuid, HasChildFor, HasRow;
    assert db.audits + [] == db.audits;
    var defect := Defect(db.tasks, ctx, [], body);
    if defect.None? {
      CreatedIsChild(db, ctx, body.value);
      hide InsertTask, IsNextNumber, IsChild;
    }
  }

  lemma CreatedIsChild(db: Db, ctx: Ctx, p: Payload)
    requires Complete(Some(p)) && ValidPayload(p)
    ensures var d := InsertTask(db.tasks, ChildOf(ctx, p));
            && |d| == |db.tasks| + 1 && db.tasks <= d
            && IsChild(d[|db.tasks|], ctx, p) && IsNextNumber(db.tasks, ctx.company, d[|db.tasks|].number)
  {
    hide Trim, IsUuid, MaxNumber;
    var m := MaxNumber(db.tasks, ctx.company);
    forall t | t in db.tasks && t.company == ctx.company ensures t.number <= m {
      var i :| 0 <= i < |db.tasks| && db.tasks[i] == t;
    }
  }

  // ---- a whole reply -----------------------------------------------------------

  // The reasons of the ignored blocks, in order.
  ghost function Ignoreds(tasks: seq<Task>, ctx: Ctx, bodies: seq<Option<Payload>>): seq<Reason> {
    if bodies == [] then []
    else
      var n := |bodies| - 1;
      var defect := Defect(tasks, ctx, bodies[..n], bodies[n]);
      Ignoreds(tasks, ctx, bodies[..n]) + if defect.Some? then [defect.value] else []
  }

  // The payloads of the others, in order.
  ghost function Accepted(tasks: seq<Task>, ctx: Ctx, bodies: seq<Option<Payload>>): (r: seq<Payload>)
    ensures forall p | p in r :: Complete(Some(p))
  {
    if bodies == [] then []
    else
      var n := |bodies| - 1;
      Accepted(tasks, ctx, bodies[..n])
      + if Defect(tasks, ctx, bodies[..n], bodies[n]).None? then [bodies[n].value] else []
  }

  // An earlier block counts as a row: a teammate has a child in the table as it is by now exactly if he is served.
  lemma {:induction false} RowIffServed(db: Db, ctx: Ctx, bodies: seq<Option<Payload>>, target: AgentId)
    requires ctx.parent.Some?
    ensures HasRow(HandleAll(db, ctx, bodies).tasks, ctx.parent.value, target) <==> Served(db.tasks, ctx, bodies, target)
  {
    if bodies != [] {
      var n := |bodies| - 1;
      var before := HandleAll(db, ctx, bodies[..n]);
      RowIffServed(db, ctx, bodies[..n], target);
      BlockMeans(before, ctx, bodies[n]);
      assert bodies == bodies[..n] + [bodies[n]];
      hide Complete, Handle;
      if Proper(ctx, bodies[n]) {
        RowIffServed(db, ctx, bodies[..n], bodies[n].value.target.value);
      }
      RowsAfter(before, ctx, bodies[n], Handle(before, ctx, bodies[n]), target);
    }
  }

  // The rows a block leaves.
  lemma RowsAfter(db: Db, ctx: Ctx, body: Option<Payload>, d: Db, target: AgentId)
    requires ctx.parent.Some? && BlockStep(db, ctx, body, Defect(db.tasks, ctx, [], body), d, |db.tasks|)
    ensures HasRow(d.tasks, ctx.parent.value, target) <==>
              HasRow(db.tasks, ctx.parent.value, target) || (Proper(ctx, body) && body.value.target.value == target)
  {
    hide IsUuid, Trim, IsNextNumber;
    if Defect(db.tasks, ctx, [], body).None? {
      assert d.tasks == db.tasks + [d.tasks[|db.tasks|]];
      RowSnoc(db.tasks, d.tasks[|db.tasks|], ctx.parent.value, target);
      hide HasRow;
    }
  }

  lemma RowSnoc(tasks: seq<Task>, t: Task, parent: TaskId, target: AgentId)
    ensures HasRow(tasks + [t], parent, target) <==> HasRow(tasks, parent, target) || (t.parent == Some(parent) && t.assignee == Some(target))
  {
    if HasRow(tasks, parent, target) {
      var x :| x in tasks && x.parent == Some(parent) && x.assignee == Some(target);
      assert x in tasks + [t];
    }
    assert t in tasks + [t];
  }

  // Row i is the child of this payload, numbered after those before it, and reported as such.
  ghost predicate Created(tasks: seq<Task>, i: nat, ctx: Ctx, p: Payload, reported: Delegation) {
    && i < |tasks| && Complete(Some(p)) && IsChild(tasks[i], ctx, p) && IsNextNumber(tasks[..i], ctx.company, tasks[i].number)
    && reported == Delegation(i, p.target.value, Trim(p.title.value))
  }

  lemma DefectByRows(db: Db, ctx: Ctx, bodies: seq<Option<Payload>>, body: Option<Payload>)
    ensures Defect(HandleAll(db, ctx, bodies).tasks, ctx, [], body) == Defect(db.tasks, ctx, bodies, body)
  {
    if ctx.parent.Some? && Complete(body) {
      RowIffServed(db, ctx, bodies, body.value.target.value);
    }
    hide HandleAll, HasRow, Complete;
  }

  // What the report says of one block.
  lemma BlockIsNoted(db: Db, ctx: Ctx, bodies: seq<Option<Payload>>, report: Report)
    requires bodies != [] && report == ReportAll(db, ctx, bodies[..|bodies| - 1])
    ensures var n := |bodies| - 1;
            var before, defect := HandleAll(db, ctx, bodies[..n]), Defect(db.tasks, ctx, bodies[..n], bodies[n]);
            ReportAll(db, ctx, bodies) ==
              match defect
              case Some(reason) => report.(ignored := report.ignored + [reason])
              case None => report.(delegated := report.delegated
                             + [Delegation(|before.tasks|, bodies[n].value.target.value, Trim(bodies[n].value.title.value))])
  {
    var n := |bodies| - 1;
    var before := HandleAll(db, ctx, bodies[..n]);
    DefectByRows(db, ctx, bodies[..n], bodies[n]);
    ValidIsComplete(bodies[n]);
    if Complete(bodies[n]) && ctx.parent.Some? {
      RowIsChild(before.tasks, ctx.parent.value, bodies[n].value.target.value);
    }
    hide Trim, IsUuid, HasChildFor, HasRow, HandleAll;
  }

  // The reply's effect and report, given which payloads were accepted and why the others were not.
  ghost predicate ReplyStep(db: Db, ctx: Ctx, ignored: seq<Reason>, accepted: seq<Payload>, d: Db, r: Report) {
    && r.ignored == ignored
    && |r.delegated| == |accepted| && |d.tasks| == |db.tasks| + |accepted| && db.tasks <= d.tasks
    && |d.queue| == |db.queue| + |accepted| && db.queue <= d.queue
    && forall m | 0 <= m < |accepted| ::
         Created(d.tasks, |db.tasks| + m, ctx, accepted[m], r.delegated[m]) && d.queue[|db.queue| + m] == |db.tasks| + m
  }

  lemma CreatedStays(a: seq<Task>, b: seq<Task>, i: nat, ctx: Ctx, p: Payload, reported: Delegation)
    requires a <= b && Created(a, i, ctx, p, reported)
    ensures Created(b, i, ctx, p, reported)
  {
    assert b[..i] == a[..i];
    hide IsUuid, IsNextNumber, Trim;
  }

  lemma OneMoreChild(db: Db, ctx: Ctx, ignored: seq<Reason>, accepted: seq<Payload>, b: Db, q: Report,
                     body: Option<Payload>, d: Db, r: Report)
    requires ReplyStep(db, ctx, ignored, accepted, b, q) && BlockStep(b, ctx, body, None, d, |b.tasks|)
    requires Complete(body)
    requires r == q.(delegated := q.delegated + [Delegation(|b.tasks|, body.value.target.value, Trim(body.value.title.value))])
    ensures ReplyStep(db, ctx, ignored, accepted + [body.value], d, r)
  {
    hide IsUuid, IsNextNumber, IsChild, Trim;
    assert body.Some?;
    hide Complete;
    var more := accepted + [body.value];
    forall m | 0 <= m < |more|
      ensures Created(d.tasks, |db.tasks| + m, ctx, more[m], r.delegated[m]) && d.queue[|db.queue| + m] == |db.tasks| + m
    {
      if m < |accepted| {
        CreatedStays(b.tasks, d.tasks, |db.tasks| + m, ctx, accepted[m], q.delegated[m]);
      } else {
        assert d.tasks[..|b.tasks|] == b.tasks;
      }
    }
  }

  /**
   A reply: its blocks are judged by the rows there were and the blocks before them. The ignored ones are reported with
   their reasons, in order; each of the others has one new row, its child, queued and reported in order.
   */
  lemma {:induction false} ReplyMeans(db: Db, ctx: Ctx, bodies: seq<Option<Payload>>)
    ensures ReplyStep(db, ctx, Ignoreds(db.tasks, ctx, bodies), Accepted(db.tasks, ctx, bodies),
                      HandleAll(db, ctx, bodies), ReportAll(db, ctx, bodies))
  {
    if bodies == [] {
      assert db.tasks <= db.tasks && db.queue <= db.queue;
    } else {
      hide HasRow, Complete, Trim, IsUuid, Handle, Served, Created, ReplyStep, BlockStep, ReportAll, HandleAll, Defect, Ignoreds, Accepted;
      var n := |bodies| - 1;
      var b, q := HandleAll(db, ctx, bodies[..n]), ReportAll(db, ctx, bodies[..n]);
      var ignored, accepted := Ignoreds(db.tasks, ctx, bodies[..n]), Accepted(db.tasks, ctx, bodies[..n]);
      var defect := Defect(db.tasks, ctx, bodies[..n], bodies[n]);
      ReplyMeans(db, ctx, bodies[..n]);
      BlockIsNoted(db, ctx, bodies, q);
      DefectByRows(db, ctx, bodies[..n], bodies[n]);
      BlockMeans(b, ctx, bodies[n]);
      LastBlock(db, ctx, bodies);
      if defect.None? {
        OneMoreChild(db, ctx, ignored, accepted, b, q, bodies[n], HandleAll(db, ctx, bodies), ReportAll(db, ctx, bodies));
      } else {
        OneMoreReason(db, ctx, ignored, accepted, b, q, bodies[n], defect.value, HandleAll(db, ctx, bodies), ReportAll(db, ctx, bodies));
      }
    }
  }

  lemma LastBlock(db: Db, ctx: Ctx, bodies: seq<Option<Payload>>)
    requires bodies != []
    ensures var n := |bodies| - 1;
            var defect := Defect(db.tasks, ctx, bodies[..n], bodies[n]);
            && HandleAll(db, ctx, bodies) == Handle(HandleAll(db, ctx, bodies[..n]), ctx, bodies[n])
            && (defect.None? ==> Complete(bodies[n]))
            && Ignoreds(db.tasks, ctx, bodies)
               == Ignoreds(db.tasks, ctx, bodies[..n]) + (if defect.Some? then [defect.value] else [])
            && Accepted(db.tasks, ctx, bodies)
               == Accepted(db.tasks, ctx, bodies[..n]) + (if defect.None? then [bodies[n].value] else [])
  {
    hide Handle, Complete, Served;
  }

  lemma OneMoreReason(db: Db, ctx: Ctx, ignored: seq<Reason>, accepted: seq<Payload>, b: Db, q: Report,
                      body: Option<Payload>, reason: Reason, d: Db, r: Report)
    requires ReplyStep(db, ctx, ignored, accepted, b, q) && BlockStep(b, ctx, body, Some(reason), d, |b.tasks|)
    requires r == q.(ignored := q.ignored + [reason])
    ensures ReplyStep(db, ctx, ignored + [reason], accepted + [], d, r)
  {
    hide Created;
  }

  // The teammates who have a child under the parent.
  ghost function Assignees(tasks: seq<Task>, parent: TaskId): set<AgentId> {
    set t | t in tasks && t.parent == Some(parent) && t.assignee.Some? :: t.assignee.value
  }

  /** Under a parent, a reply leaves those with a child who had one, and every teammate a complete block of it names. */
  lemma TeamIsServed(db: Db, ctx: Ctx, bodies: seq<Option<Payload>>)
    requires ctx.parent.Some?
    ensures Assignees(HandleAll(db, ctx, bodies).tasks, ctx.parent.value)
         == Assignees(db.tasks, ctx.parent.value) + set b | b in bodies && Proper(ctx, b) :: b.value.target.value
  {
    var after, named := HandleAll(db, ctx, bodies).tasks, set b | b in bodies && Proper(ctx, b) :: b.value.target.value;
    hide HandleAll, Complete;
    forall a ensures a in Assignees(after, ctx.parent.value) <==> a in Assignees(db.tasks, ctx.parent.value) + named {
      RowIffServed(db, ctx, bodies, a);
      AssigneeHasRow(after, ctx.parent.value, a);
      AssigneeHasRow(db.tasks, ctx.parent.value, a);
    }
  }

  lemma AssigneeHasRow(tasks: seq<Task>, parent: TaskId, a: AgentId)
    ensures a in Assignees(tasks, parent) <==> HasRow(tasks, parent, a)
  {
    if HasRow(tasks, parent, a) {
      var t :| t in tasks && t.parent == Some(parent) && t.assignee == Some(a);
      assert t.assignee.value in Assignees(tasks, parent);
    }
  }
}
