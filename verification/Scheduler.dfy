/** The routine scheduler: due triggers are claimed in batches, oldest first, and armed again for later. */
module Scheduler {
  import opened Text

  type RoutineId = string
  datatype Trigger = Trigger(routine: RoutineId, enabled: bool, isCron: bool, expression: Option<string>,
                             nextRunAt: Option<nat>, lastFiredAt: Option<nat>)
  datatype Routine = Routine(active: bool, lastTriggeredAt: Option<nat>)

  const BATCH: nat := 32

  predicate Due(t: Trigger, routines: map<RoutineId, Routine>, now: nat) {
    && t.enabled && t.isCron && t.nextRunAt.Some? && t.nextRunAt.value <= now
    && t.routine in routines && routines[t.routine].active
  }

  predicate NoLater(a: Trigger, b: Trigger) {
    a.nextRunAt.Some? && b.nextRunAt.Some? && a.nextRunAt.value <= b.nextRunAt.value
  }

  // Any answer to: ... WHERE due ORDER BY next_run_at LIMIT limit
  ghost predicate Batch(triggers: seq<Trigger>, routines: map<RoutineId, Routine>, now: nat, limit: nat, ids: seq<nat>) {
    && |ids| <= limit
    && (forall k | 0 <= k < |ids| :: ids[k] < |triggers| && Due(triggers[ids[k]], routines, now))
    && (forall j, k | 0 <= j < k < |ids| :: ids[j] != ids[k] && NoLater(triggers[ids[j]], triggers[ids[k]]))
    && (forall i | 0 <= i < |triggers| && Due(triggers[i], routines, now) && i !in ids ::
          |ids| == limit && forall k | 0 <= k < |ids| :: NoLater(triggers[ids[k]], triggers[i]))
  }

  predicate Left(triggers: seq<Trigger>, routines: map<RoutineId, Routine>, now: nat, ids: seq<nat>, i: nat) {
    i < |triggers| && Due(triggers[i], routines, now) && i !in ids
  }

  // The earliest of the first n triggers that is due and not among `ids`, if any.
  function Earliest(triggers: seq<Trigger>, routines: map<RoutineId, Routine>, now: nat, ids: seq<nat>, n: nat): (r: Option<nat>)
    requires n <= |triggers|
    ensures r.Some? ==> Left(triggers, routines, now, ids, r.value)
    ensures forall i: nat | i < n && Left(triggers, routines, now, ids, i) ::
              r.Some? && NoLater(triggers[r.value], triggers[i])
  {
    if n == 0 then None
    else
      var r := Earliest(triggers, routines, now, ids, n - 1);
      if Left(triggers, routines, now, ids, n - 1) && (r.None? || !NoLater(triggers[r.value], triggers[n - 1]))
      then Some(n - 1) else r
  }

  /** The query always has an answer. */
  lemma {:induction false} BatchExists(triggers: seq<Trigger>, routines: map<RoutineId, Routine>, now: nat, limit: nat)
    ensures exists ids :: Batch(triggers, routines, now, limit, ids)
  {
    if limit == 0 {
      assert Batch(triggers, routines, now, limit, []);
    } else {
      BatchExists(triggers, routines, now, limit - 1);
      var ids :| Batch(triggers, routines, now, limit - 1, ids);
      var r := Earliest(triggers, routines, now, ids, |triggers|);
      if r.None? {
        BatchIsComplete(triggers, routines, now, limit, ids);
      } else {
        BatchExtends(triggers, routines, now, limit, ids, r.value);
      }
    }
  }

  lemma BatchIsComplete(triggers: seq<Trigger>, routines: map<RoutineId, Routine>, now: nat, limit: nat, ids: seq<nat>)
    requires limit > 0 && Batch(triggers, routines, now, limit - 1, ids)
    requires forall i: nat :: !Left(triggers, routines, now, ids, i)
    ensures Batch(triggers, routines, now, limit, ids)
  {
    assert forall i | 0 <= i < |triggers| && Due(triggers[i], routines, now) && i !in ids :: Left(triggers, routines, now, ids, i);
    hide Due;
  }

  lemma BatchExtends(triggers: seq<Trigger>, routines: map<RoutineId, Routine>, now: nat, limit: nat, ids: seq<nat>, e: nat)
    requires limit > 0 && Batch(triggers, routines, now, limit - 1, ids)
    requires Left(triggers, routines, now, ids, e)
    requires forall i: nat | Left(triggers, routines, now, ids, i) :: NoLater(triggers[e], triggers[i])
    ensures Batch(triggers, routines, now, limit, ids + [e])
  {
    assert |ids| == limit - 1 && forall k | 0 <= k < |ids| :: NoLater(triggers[ids[k]], triggers[e]);
    hide Due, NoLater;
    forall i | 0 <= i < |triggers| && Due(triggers[i], routines, now) && i !in ids + [e]
      ensures forall k | 0 <= k < limit :: NoLater(triggers[(ids + [e])[k]], triggers[i])
    {
      assert Left(triggers, routines, now, ids, i);
    }
  }

  // ---- one tick ----------------------------------------------------------------

  // A cron expression's next time, read in its routine's time zone, lies in the future.
  ghost predicate Forward(cron: (string, nat) -> Option<nat>) {
    forall e, now: nat :: cron(e, now).Some? ==> cron(e, now).value > now
  }

  function Rearmed(t: Trigger, cron: (string, nat) -> Option<nat>, now: nat): Trigger {
    t.(lastFiredAt := Some(now), nextRunAt := if t.expression.Some? then cron(t.expression.value, now) else None)
  }

  ghost predicate Ticked(a: seq<Trigger>, b: seq<Trigger>, cron: (string, nat) -> Option<nat>, now: nat, ids: seq<nat>) {
    |a| == |b| && forall i | 0 <= i < |a| :: b[i] == if i in ids then Rearmed(a[i], cron, now) else a[i]
  }

  class TriggerTable {
    var triggers: seq<Trigger>
    var routines: map<RoutineId, Routine>
    const cron: (string, nat) -> Option<nat>

    constructor (triggers: seq<Trigger>, routines: map<RoutineId, Routine>, cron: (string, nat) -> Option<nat>)
      ensures this.triggers == triggers && this.routines == routines && this.cron == cron
    {
      this.triggers, this.routines, this.cron := triggers, routines, cron;
    }

    /** `rows` is what the query returned; each gets its own next time, and its routine a stamp. */
    method ClaimDueTriggers(now: nat, rows: seq<nat>)
      requires Batch(triggers, routines, now, BATCH, rows)
      modifies this
      ensures Ticked(old(triggers), triggers, cron, now, rows)
      ensures routines.Keys == old(routines).Keys
      ensures forall r | r in routines ::
                && routines[r].active == old(routines)[r].active
                && routines[r].lastTriggeredAt
                   == if exists k: nat :: k < |rows| && old(triggers)[rows[k]].routine == r then Some(now)
                      else old(routines)[r].lastTriggeredAt
    {
      ghost var before := triggers;
      var k := 0;
      while k < |rows|
        invariant k <= |rows| && |triggers| == |before| && routines == old(routines)
        invariant forall i | 0 <= i < |before| ::
                    triggers[i] == if i in rows[..k] then Rearmed(before[i], cron, now) else before[i]
      {
        assert rows[..k + 1] == rows[..k] + [rows[k]];
        var t := triggers[rows[k]];
        var next := if t.expression.Some? then cron(t.expression.value, now) else None;
        triggers := triggers[rows[k] := t.(lastFiredAt := Some(now), nextRunAt := next)];
        k := k + 1;
      }
      assert rows[..|rows|] == rows;
      var stamped := set k: nat | k < |rows| :: triggers[rows[k]].routine;
      routines := map r | r in routines :: if r in stamped then routines[r].(lastTriggeredAt := Some(now)) else routines[r];
    }
  }

  // ---- fairness ----------------------------------------------------------------

  // Between ticks operators add, remove or change triggers.
  datatype Step = Tick(now: nat, rows: seq<nat>) | Edit

  datatype Tables = Tables(triggers: seq<Trigger>, routines: map<RoutineId, Routine>)

  // Trigger i is waiting since `since`; what else changes gets a later time or none.
  ghost predicate Moves(a: Tables, s: Step, b: Tables, cron: (string, nat) -> Option<nat>, i: nat, since: nat)
    requires i < |a.triggers|
  {
    && i < |b.triggers|
    && match s
       case Tick(now, rows) =>
         && Batch(a.triggers, a.routines, now, BATCH, rows) && Ticked(a.triggers, b.triggers, cron, now, rows)
         && Due(a.triggers[i], a.routines, now)
       case Edit =>
         && b.triggers[i] == a.triggers[i]
         && forall j | 0 <= j < |b.triggers| ::
              || b.triggers[j].nextRunAt.None? || b.triggers[j].nextRunAt.value > since
              || (j < |a.triggers| && b.triggers[j].nextRunAt == a.triggers[j].nextRunAt)
  }

  ghost predicate Run(t: seq<Tables>, steps: seq<Step>, cron: (string, nat) -> Option<nat>, i: nat, since: nat) {
    && |t| == |steps| + 1
    && (forall k | 0 <= k < |t| :: i < |t[k].triggers|)
    && t[0].triggers[i].nextRunAt == Some(since)
    && forall k | 0 <= k < |steps| :: Moves(t[k], steps[k], t[k + 1], cron, i, since)
  }

  predicate Ahead(triggers: seq<Trigger>, since: nat, i: nat, j: nat)
    requires j < |triggers|
  {
    j != i && triggers[j].nextRunAt.Some? && triggers[j].nextRunAt.value <= since
  }

  function CountAhead(triggers: seq<Trigger>, since: nat, i: nat): nat {
    |AheadSet(triggers, since, i)|
  }

  function Ticks(steps: seq<Step>): nat {
    if steps == [] then 0 else Ticks(steps[..|steps| - 1]) + if steps[|steps| - 1].Tick? then 1 else 0
  }

  lemma SubsetIsSmaller<T>(a: set<T>, b: set<T>)
    requires a <= b
    ensures |a| <= |b|
  {
    assert b == a + (b - a);
  }

  function AsSet(ids: seq<nat>): set<nat> {
    set x | x in ids
  }

  lemma {:induction false} DistinctAreMany(ids: seq<nat>)
    requires forall j, k | 0 <= j < k < |ids| :: ids[j] != ids[k]
    ensures |AsSet(ids)| == |ids|
  {
    if ids != [] {
      var n := |ids| - 1;
      DistinctAreMany(ids[..n]);
      assert ids == ids[..n] + [ids[n]];
      assert AsSet(ids) == AsSet(ids[..n]) + {ids[n]};
      assert ids[n] !in AsSet(ids[..n]);
    }
  }

  function AheadSet(triggers: seq<Trigger>, since: nat, i: nat): set<nat> {
    set j: nat | j < |triggers| && Ahead(triggers, since, i, j)
  }

  // Those a tick serves were ahead of trigger i and no longer are; nobody else moves ahead of it.
  lemma ServedLeave(a: Tables, b: Tables, cron: (string, nat) -> Option<nat>, i: nat, since: nat, now: nat, rows: seq<nat>)
    requires Forward(cron) && i < |a.triggers| && a.triggers[i].nextRunAt == Some(since)
    requires Moves(a, Tick(now, rows), b, cron, i, since) && i !in rows
    ensures b.triggers[i] == a.triggers[i]
    ensures |rows| == BATCH && AsSet(rows) <= AheadSet(a.triggers, since, i)
    ensures AheadSet(b.triggers, since, i) <= AheadSet(a.triggers, since, i) - AsSet(rows)
  {
    assert forall k | 0 <= k < |rows| :: NoLater(a.triggers[rows[k]], a.triggers[i]);
    forall j | j in AsSet(rows)
      ensures j < |a.triggers| && Ahead(a.triggers, since, i, j) && !Ahead(b.triggers, since, i, j)
    {
      var k :| 0 <= k < |rows| && rows[k] == j;
      assert Due(a.triggers[rows[k]], a.routines, now) && NoLater(a.triggers[rows[k]], a.triggers[i]);
      assert b.triggers[j] == Rearmed(a.triggers[j], cron, now);
    }
    hide Due, NoLater, Forward;
  }

  lemma Shrinks(was: set<nat>, left: set<nat>, served: set<nat>)
    requires served <= was && left <= was - served
    ensures |left| + |served| <= |was|
  {
    SubsetIsSmaller(left, was - served);
    assert was == (was - served) + served;
  }

  /** A tick that passes trigger i over serves a full batch of triggers ahead of it, for good. */
  lemma TickServesAhead(a: Tables, b: Tables, cron: (string, nat) -> Option<nat>, i: nat, since: nat, now: nat, rows: seq<nat>)
    requires Forward(cron) && i < |a.triggers| && a.triggers[i].nextRunAt == Some(since)
    requires Moves(a, Tick(now, rows), b, cron, i, since) && i !in rows
    ensures b.triggers[i] == a.triggers[i]
    ensures CountAhead(b.triggers, since, i) + 32 <= CountAhead(a.triggers, since, i)
  {
    assert forall j, k | 0 <= j < k < |rows| :: rows[j] != rows[k];
    hide Due, NoLater, Forward, AsSet, AheadSet, Moves;
    ServedLeave(a, b, cron, i, since, now, rows);
    DistinctAreMany(rows);
    Shrinks(AheadSet(a.triggers, since, i), AheadSet(b.triggers, since, i), AsSet(rows));
  }

  lemma EditKeepsPlace(a: Tables, b: Tables, cron: (string, nat) -> Option<nat>, i: nat, since: nat)
    requires i < |a.triggers| && Moves(a, Edit, b, cron, i, since)
    ensures CountAhead(b.triggers, since, i) <= CountAhead(a.triggers, since, i)
  {
    SubsetIsSmaller(AheadSet(b.triggers, since, i), AheadSet(a.triggers, since, i));
  }

  lemma {:induction false} PassedOver(t: seq<Tables>, steps: seq<Step>, cron: (string, nat) -> Option<nat>, i: nat, since: nat)
    requires Forward(cron) && Run(t, steps, cron, i, since)
    requires forall k | 0 <= k < |steps| && steps[k].Tick? :: i !in steps[k].rows
    ensures t[|steps|].triggers[i].nextRunAt == Some(since)
    ensures CountAhead(t[|steps|].triggers, since, i) + BATCH * Ticks(steps) <= CountAhead(t[0].triggers, since, i)
    decreases |steps|
  {
    if steps != [] {
      var n := |steps| - 1;
      PassedOver(t[..|steps|], steps[..n], cron, i, since);
      assert Moves(t[n], steps[n], t[n + 1], cron, i, since);
      match steps[n] {
        case Tick(now, rows) => TickServesAhead(t[n], t[n + 1], cron, i, since, now, rows);
        case Edit => EditKeepsPlace(t[n], t[n + 1], cron, i, since);
      }
    }
  }

  /** A due trigger with k others armed no later than it is claimed within floor(k / 32) + 1 ticks. */
  lemma DueTriggersAreServed(t: seq<Tables>, steps: seq<Step>, cron: (string, nat) -> Option<nat>, i: nat, since: nat)
    requires Forward(cron) && Run(t, steps, cron, i, since)
    requires Ticks(steps) >= CountAhead(t[0].triggers, since, i) / 32 + 1
    ensures exists k :: 0 <= k < |steps| && steps[k].Tick? && i in steps[k].rows
  {
    if forall k | 0 <= k < |steps| && steps[k].Tick? :: i !in steps[k].rows {
      PassedOver(t, steps, cron, i, since);
      assert false;
    }
  }

  /** A trigger fires at most once per due time: once claimed it is armed for later than now, or not at all. */
  lemma ClaimedIsNoLongerDue(a: seq<Trigger>, b: seq<Trigger>, routines: map<RoutineId, Routine>,
                             cron: (string, nat) -> Option<nat>, now: nat, rows: seq<nat>)
    requires Forward(cron) && Ticked(a, b, cron, now, rows)
    ensures forall i | 0 <= i < |a| && i in rows :: !Due(b[i], routines, now)
  {
  }

  /**
   When a claimed trigger is due again: from the next time its own expression gives after the claim, while it is enabled
   and its routine active; never, if it has no expression or the expression no next time. The others stay as they were.
   */
  lemma DueAgainIff(a: seq<Trigger>, b: seq<Trigger>, cron: (string, nat) -> Option<nat>, now: nat, rows: seq<nat>, i: nat,
                    routines: map<RoutineId, Routine>, later: nat)
    requires Ticked(a, b, cron, now, rows) && i < |a|
    requires i in rows ==> a[i].enabled && a[i].isCron
    ensures i < |b| && (i !in rows ==> b[i] == a[i]) && (i in rows ==> b[i].lastFiredAt == Some(now))
    ensures i in rows ==>
              (Due(b[i], routines, later) <==>
                 && a[i].routine in routines && routines[a[i].routine].active
                 && a[i].expression.Some? && cron(a[i].expression.value, now).Some?
                 && cron(a[i].expression.value, now).value <= later)
  {
  }
}
